/** Cutting one function and everything it mentions out of a source file. */
module IslandSelect {
  /** A syntax node: its text if it is an identifier, and its children. */
  datatype Node = Node(identifier: bool, text: string, children: seq<Node>)

  /** A variable statement with the names it declares, patterns left out, or a function, interface or type
      alias with its name, or any other statement; `children` are its syntax nodes. */
  datatype Statement =
    | Variables(names: seq<string>, children: seq<Node>)
    | Named(name: string, children: seq<Node>)
    | Plain(children: seq<Node>)

  function Declared(s: Statement): set<string> {
    match s
    case Variables(names, _) => set name | name in names
    case Named(name, _) => {name}
    case Plain(_) => {}
  }

  // ---------------------------------------------------------------------------------------------
  // The declarations
  // ---------------------------------------------------------------------------------------------

  /** Each declared name stands for the last of the first `n` statements that declares it. */
  ghost predicate LastDeclarations(statements: seq<Statement>, n: nat, declarations: map<string, nat>)
    requires n <= |statements|
  {
    && (forall name :: name in declarations ==>
          declarations[name] < n && name in Declared(statements[declarations[name]]))
    && (forall name, i :: 0 <= i < n && name in Declared(statements[i]) ==>
          name in declarations && i <= declarations[name])
  }

  method BuildDeclarations(statements: seq<Statement>) returns (declarations: map<string, nat>)
    ensures LastDeclarations(statements, |statements|, declarations)
  {
    declarations := map[];
    var i := 0;
    while i < |statements|
      invariant 0 <= i <= |statements| && LastDeclarations(statements, i, declarations)
    {
      declarations := Declare(statements[i], i, declarations);
      i := i + 1;
    }
  }

  /** One turn of the loop over the statements. */
  method Declare(statement: Statement, i: nat, before: map<string, nat>) returns (declarations: map<string, nat>)
    ensures declarations.Keys == before.Keys + Declared(statement)
    ensures forall name :: name in declarations ==>
              declarations[name] == if name in Declared(statement) then i else before[name]
  {
    declarations := before;
    match statement {
      case Variables(names, _) =>
        var k := 0;
        while k < |names|
          invariant 0 <= k <= |names|
          invariant forall name :: name in declarations <==> name in before || name in names[..k]
          invariant forall name :: name in declarations ==>
                      declarations[name] == if name in names[..k] then i else before[name]
        {
          declarations := declarations[names[k] := i];
          k := k + 1;
        }
      case Named(name, _) => declarations := declarations[name := i];
      case Plain(_) =>
    }
  }

  // ---------------------------------------------------------------------------------------------
  // Mentions
  // ---------------------------------------------------------------------------------------------

  /** Every identifier in the nodes. */
  function Mentions(nodes: seq<Node>): set<string> {
    if nodes == [] then {} else MentionsOf(nodes[0]) + Mentions(nodes[1..])
  }

  function MentionsOf(node: Node): set<string> {
    (if node.identifier then {node.text} else {}) + Mentions(node.children)
  }

  /** The node is one of these, or lies anywhere below one. */
  ghost predicate Occurs(node: Node, nodes: seq<Node>) {
    node in nodes || exists i :: 0 <= i < |nodes| && Occurs(node, nodes[i].children)
  }

  lemma OccursFirst(node: Node, nodes: seq<Node>)
    requires nodes != []
    ensures Occurs(node, nodes)
       <==> node == nodes[0] || Occurs(node, nodes[0].children) || Occurs(node, nodes[1..])
  {
    assert nodes == [nodes[0]] + nodes[1..];
    if i :| 0 <= i < |nodes| && Occurs(node, nodes[i].children) {
      if i > 0 { assert nodes[1..][i - 1] == nodes[i]; }
    }
    if i :| 0 <= i < |nodes[1..]| && Occurs(node, nodes[1..][i].children) { assert nodes[i + 1] == nodes[1..][i]; }
  }

  /** A name is mentioned exactly if an identifier of that text stands anywhere in the nodes. */
  lemma {:induction false} MentionsExactly(nodes: seq<Node>, name: string)
    ensures name in Mentions(nodes) <==> exists node :: Occurs(node, nodes) && node.identifier && node.text == name
  {
    if nodes != [] {
      hide Occurs;
      MentionsExactly(nodes[0].children, name);
      MentionsExactly(nodes[1..], name);
      forall node
        ensures Occurs(node, nodes) <==> node == nodes[0] || Occurs(node, nodes[0].children) || Occurs(node, nodes[1..])
      {
        OccursFirst(node, nodes);
      }
    }
  }

  /** The statement a name stands for, if any. */
  function Meaning(declarations: map<string, nat>, name: string): set<nat> {
    if name in declarations then {declarations[name]} else {}
  }

  /** The statements the names stand for. */
  function Meanings(declarations: map<string, nat>, names: set<string>): set<nat> {
    set name | name in names && name in declarations :: declarations[name]
  }

  /** What a statement mentions. */
  function Edges(statements: seq<Statement>, declarations: map<string, nat>, i: nat): set<nat> {
    if i < |statements| then Meanings(declarations, Mentions(statements[i].children)) else {}
  }

  /** `within` holds whatever the statements of `some` mention. */
  ghost predicate Closed(statements: seq<Statement>, declarations: map<string, nat>, some: set<nat>, within: set<nat>) {
    forall i :: i in some ==> Edges(statements, declarations, i) <= within
  }

  function Indices(n: nat): (all: set<nat>)
    ensures forall i: nat :: i in all <==> i < n
  {
    if n == 0 then {} else Indices(n - 1) + {n - 1}
  }

  function Size(node: Node): nat {
    1 + Sizes(node.children)
  }

  function Sizes(nodes: seq<Node>): nat {
    if nodes == [] then 0 else 1 + Size(nodes[0]) + Sizes(nodes[1..])
  }

  // ---------------------------------------------------------------------------------------------
  // The walk
  // ---------------------------------------------------------------------------------------------

  class Selector {
    const statements: seq<Statement>
    const declarations: map<string, nat>
    var selected: set<nat>

    constructor (statements: seq<Statement>, declarations: map<string, nat>)
      requires forall name :: name in declarations ==> declarations[name] < |statements|
      ensures this.statements == statements && this.declarations == declarations && selected == {} && Valid()
    {
      this.statements, this.declarations, selected := statements, declarations, {};
    }

    ghost predicate Valid()
      reads this
    {
      && (forall name :: name in declarations ==> declarations[name] < |statements|)
      && (forall i :: i in selected ==> i < |statements|)
    }

    ghost function Left(): nat
      reads this
    {
      |Indices(|statements|) - selected|
    }

    /** What one walk does: it selects `roots`, everything newly selected has its mentions selected too, and
        nothing is selected that a closed set around `roots` could do without. */
    ghost predicate Selects(before: set<nat>, roots: set<nat>, after: set<nat>) {
      && before <= after && roots <= after
      && Closed(statements, declarations, after - before, after)
      && (forall within: set<nat> :: roots <= within && Closed(statements, declarations, within, within) ==>
            after - before <= within)
    }

    /** `select` */
    method Select(name: string)
      requires Valid()
      modifies this
      ensures Valid() && Selects(old(selected), Meaning(declarations, name), selected) && Left() <= old(Left())
      decreases Left(), 0
    {
      if name !in declarations || declarations[name] in selected { return; }
      var statement := declarations[name];
      ghost var before := selected;
      Shrinks(statement);
      selected := selected + {statement};
      ghost var begun := selected;
      VisitChildren(statements[statement].children);
      Finished(before, statement, begun, selected);
    }

    /** `ts.forEachChild(_, visit)` */
    method VisitChildren(nodes: seq<Node>)
      requires Valid()
      modifies this
      ensures Valid() && Selects(old(selected), Meanings(declarations, Mentions(nodes)), selected)
              && Left() <= old(Left())
      decreases Left(), Sizes(nodes)
    {
      if nodes != [] {
        ghost var before := selected;
        Visit(nodes[0]);
        ghost var mid := selected;
        VisitChildren(nodes[1..]);
        Then(before, MentionsOf(nodes[0]), mid, Mentions(nodes[1..]), selected);
      }
    }

    /** `visit` */
    method Visit(node: Node)
      requires Valid()
      modifies this
      ensures Valid() && Selects(old(selected), Meanings(declarations, MentionsOf(node)), selected)
              && Left() <= old(Left())
      decreases Left(), Size(node)
    {
      ghost var before := selected;
      if node.identifier {
        Select(node.text);
        assert Meaning(declarations, node.text) == Meanings(declarations, {node.text});
      }
      ghost var mid := selected;
      VisitChildren(node.children);
      Then(before, if node.identifier then {node.text} else {}, mid, Mentions(node.children), selected);
    }

    lemma Shrinks(i: nat)
      requires Valid() && i < |statements| && i !in selected
      ensures |Indices(|statements|) - (selected + {i})| < Left()
    {
      var all := Indices(|statements|);
      assert all - selected == (all - (selected + {i})) + {i};
    }

    /** One walk after another. */
    lemma Then(before: set<nat>, first: set<string>, mid: set<nat>, second: set<string>, after: set<nat>)
      requires Selects(before, Meanings(declarations, first), mid)
               && Selects(mid, Meanings(declarations, second), after)
      ensures Selects(before, Meanings(declarations, first + second), after)
    {}

    /** A statement whose children have been walked. */
    lemma Finished(before: set<nat>, i: nat, begun: set<nat>, after: set<nat>)
      requires i < |statements| && begun == before + {i}
      requires Selects(begun, Meanings(declarations, Mentions(statements[i].children)), after)
      ensures Selects(before, {i}, after)
    {
      forall within: set<nat> | {i} <= within && Closed(statements, declarations, within, within)
        ensures after - before <= within
      {
        assert Edges(statements, declarations, i) <= within;
      }
    }
  }

  // ---------------------------------------------------------------------------------------------
  // Exactly what can be reached
  // ---------------------------------------------------------------------------------------------

  /** Each statement of the path mentions the next. */
  ghost predicate Path(statements: seq<Statement>, declarations: map<string, nat>, path: seq<nat>) {
    forall k :: 0 <= k < |path| - 1 ==> path[k + 1] in Edges(statements, declarations, path[k])
  }

  ghost predicate Reaches(statements: seq<Statement>, declarations: map<string, nat>, name: string, i: nat) {
    exists path: seq<nat> ::
      path != [] && Path(statements, declarations, path) && path[|path| - 1] == i
      && name in declarations && path[0] == declarations[name]
  }

  lemma {:induction false} PathStaysIn(statements: seq<Statement>, declarations: map<string, nat>, path: seq<nat>,
                                       within: set<nat>, k: nat)
    requires Path(statements, declarations, path) && k < |path| && path[0] in within
    requires Closed(statements, declarations, within, within)
    ensures path[k] in within
  {
    if k > 0 {
      PathStaysIn(statements, declarations, path, within, k - 1);
      assert path[k - 1 + 1] in Edges(statements, declarations, path[k - 1]);
    }
  }

  lemma ReachedIsClosed(statements: seq<Statement>, declarations: map<string, nat>, name: string, within: set<nat>)
    requires forall i :: i in within <==> Reaches(statements, declarations, name, i)
    ensures Closed(statements, declarations, within, within)
  {
    forall i, j | i in within && j in Edges(statements, declarations, i) ensures j in within {
      var path :| path != [] && Path(statements, declarations, path) && path[|path| - 1] == i
                  && name in declarations && path[0] == declarations[name];
      assert Path(statements, declarations, path + [j]);
      assert (path + [j])[|path + [j]| - 1] == j;
    }
  }

  lemma ReachesDeclared(statements: seq<Statement>, declarations: map<string, nat>, name: string, i: nat)
    requires forall n :: n in declarations ==> declarations[n] < |statements|
    requires Reaches(statements, declarations, name, i)
    ensures i < |statements|
  {
    var path :| path != [] && Path(statements, declarations, path) && path[|path| - 1] == i
                && name in declarations && path[0] == declarations[name];
    if |path| > 1 { assert path[|path| - 2 + 1] in Edges(statements, declarations, path[|path| - 2]); }
  }

  ghost function Reached(statements: seq<Statement>, declarations: map<string, nat>, name: string): set<nat> {
    set i | i in Indices(|statements|) && Reaches(statements, declarations, name, i)
  }

  /** The statements the benchmark runs: those selected, in source order. */
  method Extract(statements: seq<Statement>, name: string) returns (declarations: map<string, nat>, chosen: seq<nat>)
    ensures LastDeclarations(statements, |statements|, declarations)
    ensures forall i :: i in chosen <==> Reaches(statements, declarations, name, i)
    ensures forall j, k :: 0 <= j < k < |chosen| ==> chosen[j] < chosen[k]
  {
    declarations := BuildDeclarations(statements);
    var selector := new Selector(statements, declarations);
    selector.Select(name);
    SelectedIsReached(selector, name);
    chosen := Filter(|statements|, selector.selected);
  }

  /** `tree.statements.filter(statement => selected.has(statement))` */
  method Filter(n: nat, selected: set<nat>) returns (chosen: seq<nat>)
    requires forall i :: i in selected ==> i < n
    ensures forall i :: i in chosen <==> i in selected
    ensures forall j, k :: 0 <= j < k < |chosen| ==> chosen[j] < chosen[k]
  {
    chosen := [];
    var i := 0;
    while i < n
      invariant 0 <= i <= n
      invariant forall k :: k in chosen <==> k in selected && k < i
      invariant forall k :: 0 <= k < |chosen| ==> chosen[k] < i
      invariant forall j, k :: 0 <= j < k < |chosen| ==> chosen[j] < chosen[k]
    {
      if i in selected { chosen := chosen + [i]; }
      i := i + 1;
    }
  }

  /** From an empty start, `select` leaves exactly the statements some chain of mentions leads to. */
  lemma SelectedIsReached(selector: Selector, name: string)
    requires selector.Valid()
    requires selector.Selects({}, Meaning(selector.declarations, name), selector.selected)
    ensures forall i :: i in selector.selected <==> Reaches(selector.statements, selector.declarations, name, i)
  {
    var statements, declarations, selected := selector.statements, selector.declarations, selector.selected;
    var reached := Reached(statements, declarations, name);
    forall i | Reaches(statements, declarations, name, i) ensures i in reached && i in selected {
      ReachesDeclared(statements, declarations, name, i);
      var path :| path != [] && Path(statements, declarations, path) && path[|path| - 1] == i
                  && name in declarations && path[0] == declarations[name];
      assert selected - {} == selected && path[0] in Meaning(declarations, name);
      PathStaysIn(statements, declarations, path, selected, |path| - 1);
    }
    ReachedIsClosed(statements, declarations, name, reached);
    if name in declarations {
      assert Path(statements, declarations, [declarations[name]]);
      assert Reaches(statements, declarations, name, declarations[name]);
    }
    assert selected - {} <= reached;
  }
}
