/** Request bodies on the command line: flattening an object schema to flags
    (cmd/osvbngcli/contract.go) and putting the flag values back together
    (cmd/osvbngcli/shell.go). */
module CliBody {
  import opened Optional

  type Path = seq<string>

  // ---------------------------------------------------------------- schemas

  /** Loose: additional properties allowed, or no type. The properties of an object are listed by
      name, so the names are distinct. */
  datatype Schema =
    | Missing
    | Loose
    | Object(props: seq<Prop>)
    | Array(items: Items)
    | Scalar

  datatype Prop = Prop(name: string, required: bool, schema: Schema)

  datatype Items = NoItems | Structured | Flat

  predicate WellFormed(s: Schema) {
    s.Object? ==>
      && (forall i, j :: 0 <= i < j < |s.props| ==> s.props[i].name != s.props[j].name)
      && (forall i :: 0 <= i < |s.props| ==> WellFormed(s.props[i].schema))
  }

  datatype Flag = Flag(path: Path, required: bool, repeated: bool)

  /** None when the schema cannot be flattened. */
  function Flatten(s: Schema, path: Path, required: bool): Option<seq<Flag>>
    decreases s, 1, 0
  {
    match s
    case Missing => Some([])
    case Loose => None
    case Object(props) => FlattenProps(s, |props|, path, required)
    case Array(items) => if items.Flat? then Some([Flag(path, required, true)]) else None
    case Scalar => Some([Flag(path, required, false)])
  }

  /** The flags of the first n properties. */
  function FlattenProps(s: Schema, n: nat, path: Path, required: bool): Option<seq<Flag>>
    requires s.Object? && n <= |s.props|
    decreases s, 0, n
  {
    if n == 0 then Some([]) else
      var p := s.props[n - 1];
      var before := FlattenProps(s, n - 1, path, required);
      var flags := Flatten(p.schema, path + [p.name], required && p.required);
      if before.None? || flags.None? then None else Some(before.value + flags.value)
  }

  // ---------------------------------------------------------------- what the flags are

  predicate Leaf(s: Schema) {
    s.Scalar? || (s.Array? && s.items.Flat?)
  }

  /** The property called name among the first n. */
  function Look(s: Schema, n: nat, name: string): Option<Prop>
    requires s.Object? && n <= |s.props|
  {
    if n == 0 then None
    else if s.props[n - 1].name == name then Some(s.props[n - 1])
    else Look(s, n - 1, name)
  }

  /** The schema at path q. */
  function At(s: Schema, q: Path): Option<Schema>
    decreases |q|
  {
    if q == [] then Some(s)
    else if s.Object? && Look(s, |s.props|, q[0]).Some? then At(Look(s, |s.props|, q[0]).value.schema, q[1..])
    else None
  }

  /** Every property on the way to q is required. */
  predicate RequiredAt(s: Schema, q: Path)
    decreases |q|
  {
    if q == [] then true
    else if s.Object? && Look(s, |s.props|, q[0]).Some? then
      Look(s, |s.props|, q[0]).value.required && RequiredAt(Look(s, |s.props|, q[0]).value.schema, q[1..])
    else false
  }

  /** f describes a leaf of s, found by walking the schema from its root at path. */
  predicate IsFlag(s: Schema, path: Path, required: bool, f: Flag) {
    path <= f.path &&
    var q := f.path[|path|..];
    && At(s, q).Some? && Leaf(At(s, q).value)
    && f.required == (required && RequiredAt(s, q)) && f.repeated == At(s, q).value.Array?
  }

  // ---------------------------------------------------------------- which schemas can be flattened

  /** Nothing about this schema itself stands in the way. */
  predicate Plain(s: Schema) {
    !s.Loose? && (s.Array? ==> s.items.Flat?)
  }

  lemma {:induction false} LookFinds(s: Schema, n: nat, name: string) returns (i: nat)
    requires s.Object? && n <= |s.props| && Look(s, n, name).Some?
    ensures i < n && s.props[i].name == name && Look(s, n, name) == Some(s.props[i])
  {
    if s.props[n - 1].name == name {
      i := n - 1;
    } else {
      i := LookFinds(s, n - 1, name);
    }
  }

  lemma {:induction false} LookAtIndex(s: Schema, n: nat, i: nat)
    requires s.Object? && WellFormed(s) && i < n <= |s.props|
    ensures Look(s, n, s.props[i].name) == Some(s.props[i])
  {
    if i < n - 1 {
      LookAtIndex(s, n - 1, i);
    }
  }

  /** An object's properties are flattened exactly when each of them is. */
  lemma {:induction false} PropsFlattenIff(s: Schema, n: nat, path: Path, required: bool)
    requires s.Object? && n <= |s.props|
    ensures FlattenProps(s, n, path, required).Some? <==>
            forall i :: 0 <= i < n ==> PropFlattens(s, i, path, required)
  {
    if n > 0 {
      PropsFlattenIff(s, n - 1, path, required);
      assert PropFlattens(s, n - 1, path, required)
        == Flatten(s.props[n - 1].schema, path + [s.props[n - 1].name], required && s.props[n - 1].required).Some?;
    }
  }

  predicate PropFlattens(s: Schema, i: nat, path: Path, required: bool)
    requires s.Object? && i < |s.props|
  {
    Flatten(s.props[i].schema, path + [s.props[i].name], required && s.props[i].required).Some?
  }

  lemma {:induction false} FlattenedIsPlain(s: Schema, path: Path, required: bool, q: Path)
    requires Flatten(s, path, required).Some? && At(s, q).Some?
    ensures Plain(At(s, q).value)
    decreases |q|
  {
    if q != [] {
      var i := LookFinds(s, |s.props|, q[0]);
      PropsFlattenIff(s, |s.props|, path, required);
      assert PropFlattens(s, i, path, required);
      FlattenedIsPlain(s.props[i].schema, path + [s.props[i].name], required && s.props[i].required, q[1..]);
    }
  }

  lemma {:induction false} UnflattenedHasReason(s: Schema, path: Path, required: bool) returns (q: Path)
    requires WellFormed(s) && Flatten(s, path, required).None?
    ensures At(s, q).Some? && !Plain(At(s, q).value)
    decreases s
  {
    if !s.Object? {
      q := [];
    } else {
      PropsFlattenIff(s, |s.props|, path, required);
      var i :| 0 <= i < |s.props| && !PropFlattens(s, i, path, required);
      var rest := UnflattenedHasReason(s.props[i].schema, path + [s.props[i].name], required && s.props[i].required);
      LookAtIndex(s, |s.props|, i);
      q := [s.props[i].name] + rest;
      assert q[1..] == rest;
    }
  }

  /** A schema is flattened exactly when nothing reachable in it allows additional properties, has no
      type, or is an array whose items are missing or structured. */
  lemma FlattensIff(s: Schema, path: Path, required: bool)
    requires WellFormed(s)
    ensures Flatten(s, path, required).Some? <==> forall q :: At(s, q).Some? ==> Plain(At(s, q).value)
  {
    if Flatten(s, path, required).Some? {
      forall q | At(s, q).Some?
        ensures Plain(At(s, q).value)
      {
        FlattenedIsPlain(s, path, required, q);
      }
    } else {
      var q := UnflattenedHasReason(s, path, required);
    }
  }

  /** No flag path is a prefix of another. */
  ghost predicate PrefixFree(flags: seq<Flag>) {
    forall i, j :: 0 <= i < |flags| && 0 <= j < |flags| && i != j ==> !(flags[i].path <= flags[j].path)
  }

  ghost predicate AllUnder(flags: seq<Flag>, path: Path) {
    forall i :: 0 <= i < |flags| ==> path <= flags[i].path
  }

  lemma Apart(a: seq<Flag>, b: seq<Flag>, path: Path, names: set<string>, name: string)
    requires PrefixFree(a) && PrefixFree(b) && name !in names
    requires forall i :: 0 <= i < |a| ==> |path| < |a[i].path| && path <= a[i].path && a[i].path[|path|] in names
    requires AllUnder(b, path + [name])
    ensures PrefixFree(a + b)
  {
  }

  /** Flattened paths are pairwise distinct, and none is a prefix of another. */
  lemma {:induction false} FlattenPrefixFree(s: Schema, path: Path, required: bool)
    requires WellFormed(s) && Flatten(s, path, required).Some?
    ensures PrefixFree(Flatten(s, path, required).value)
    ensures AllUnder(Flatten(s, path, required).value, path)
    decreases s, 1, 0
  {
    if s.Object? {
      PropsPrefixFree(s, |s.props|, path, required);
    }
  }

  function Names(s: Schema, n: nat): set<string>
    requires s.Object? && n <= |s.props|
  {
    set i | 0 <= i < n :: s.props[i].name
  }

  lemma {:induction false} PropsPrefixFree(s: Schema, n: nat, path: Path, required: bool)
    requires s.Object? && n <= |s.props| && WellFormed(s) && FlattenProps(s, n, path, required).Some?
    ensures PrefixFree(FlattenProps(s, n, path, required).value)
    ensures forall f :: f in FlattenProps(s, n, path, required).value ==>
              |path| < |f.path| && path <= f.path && f.path[|path|] in Names(s, n)
    decreases s, 0, n
  {
    if n > 0 {
      var p := s.props[n - 1];
      PropsPrefixFree(s, n - 1, path, required);
      FlattenPrefixFree(p.schema, path + [p.name], required && p.required);
      var before := FlattenProps(s, n - 1, path, required).value;
      var flags := Flatten(p.schema, path + [p.name], required && p.required).value;
      forall i | 0 <= i < |before|
        ensures |path| < |before[i].path| && path <= before[i].path && before[i].path[|path|] in Names(s, n - 1)
      {
        assert before[i] in before;
      }
      Apart(before, flags, path, Names(s, n - 1), p.name);
      forall f | f in before + flags
        ensures |path| < |f.path| && path <= f.path && f.path[|path|] in Names(s, n)
      {
        if f !in before {
          assert f in flags && path + [p.name] <= f.path;
          assert (path + [p.name])[|path|] == p.name;
        }
      }
    }
  }

  /** The flags are exactly the leaves of the schema, with their requirement and arity. */
  lemma {:induction false} FlagsAreLeaves(s: Schema, path: Path, required: bool, f: Flag)
    requires WellFormed(s) && Flatten(s, path, required).Some?
    ensures f in Flatten(s, path, required).value <==> IsFlag(s, path, required, f)
    decreases s, 1, 0
  {
    if path <= f.path {
      var q := f.path[|path|..];
      assert f.path == path + q;
      if s.Object? {
        PropFlags(s, |s.props|, path, required, f);
        if q != [] && Look(s, |s.props|, q[0]).Some? {
          StepIn(s, path, required, f, Look(s, |s.props|, q[0]).value);
        }
      } else {
        assert q != [] ==> At(s, q).None?;
        assert q == [] <==> f.path == path;
      }
    } else {
      FlattenPrefixFree(s, path, required);
    }
  }

  /** f is a flag of the property it goes through. */
  predicate ThroughProp(s: Schema, n: nat, path: Path, required: bool, f: Flag)
    requires s.Object? && n <= |s.props|
  {
    path < f.path && Look(s, n, f.path[|path|]).Some? &&
    var p := Look(s, n, f.path[|path|]).value;
    IsFlag(p.schema, path + [p.name], required && p.required, f)
  }

  lemma StepIn(s: Schema, path: Path, required: bool, f: Flag, p: Prop)
    requires s.Object? && path < f.path && Look(s, |s.props|, f.path[|path|]) == Some(p)
    ensures IsFlag(s, path, required, f) <==> IsFlag(p.schema, path + [p.name], required && p.required, f)
  {
    LookIs(s, |s.props|, f.path[|path|]);
    var q := f.path[|path|..];
    assert q[0] == p.name && q[1..] == f.path[|path| + 1..];
    assert path + [p.name] <= f.path;
  }

  lemma {:induction false} LookIs(s: Schema, n: nat, name: string)
    requires s.Object? && n <= |s.props|
    ensures Look(s, n, name).Some? ==> Look(s, n, name).value.name == name
    ensures Look(s, n, name).Some? <==> exists i :: 0 <= i < n && s.props[i].name == name
  {
    if n > 0 {
      LookIs(s, n - 1, name);
    }
  }

  lemma {:induction false} PropFlags(s: Schema, n: nat, path: Path, required: bool, f: Flag)
    requires s.Object? && n <= |s.props| && WellFormed(s) && FlattenProps(s, n, path, required).Some? && path <= f.path
    ensures f in FlattenProps(s, n, path, required).value <==> ThroughProp(s, n, path, required, f)
    decreases s, 0, n
  {
    if n > 0 {
      var p := s.props[n - 1];
      PropFlags(s, n - 1, path, required, f);
      FlagsAreLeaves(p.schema, path + [p.name], required && p.required, f);
      if path < f.path {
        LookIs(s, n - 1, f.path[|path|]);
        assert path + [p.name] <= f.path <==> f.path[|path|] == p.name;
      }
    }
  }

  // ---------------------------------------------------------------- bodies

  datatype Value = Text(text: string) | Whole(n: int) | Number(r: real) | Truth(b: bool)

  /** A JSON body under construction. */
  datatype Node = Tree(children: map<string, Node>) | Atom(value: Value) | List(items: seq<Node>)

  function Put(existing: Option<Node>, v: Node, repeated: bool): Node {
    if !repeated then v
    else if existing.None? then List([v])
    else if existing.value.List? then List(existing.value.items + [v])
    else List([existing.value, v])
  }

  function Child(m: map<string, Node>, key: string): Option<Node> {
    if key in m then Some(m[key]) else None
  }

  /** assignBodyValue: intermediate nodes that are not objects are replaced. */
  function Assign(m: map<string, Node>, path: Path, v: Node, repeated: bool): map<string, Node>
    decreases |path|
  {
    if path == [] then m
    else if |path| == 1 then m[path[0] := Put(Child(m, path[0]), v, repeated)]
    else
      var below := if path[0] in m && m[path[0]].Tree? then m[path[0]].children else map[];
      m[path[0] := Tree(Assign(below, path[1..], v, repeated))]
  }

  function Get(n: Node, p: Path): Option<Node>
    decreases |p|
  {
    if p == [] then Some(n)
    else if n.Tree? && p[0] in n.children then Get(n.children[p[0]], p[1..])
    else None
  }

  /** Nothing that is not an object lies on the way to path, and no object at its end. */
  predicate Clear(m: map<string, Node>, path: Path)
    decreases |path|
  {
    path == [] || path[0] !in m
    || (if |path| == 1 then !m[path[0]].Tree? else m[path[0]].Tree? && Clear(m[path[0]].children, path[1..]))
  }

  /** One assignment on a clear way: the end gets the value, the way is objects, and every other
      place is as it was. */
  lemma {:induction false} AssignGet(m: map<string, Node>, path: Path, v: Node, repeated: bool, p: Path)
    requires path != [] && Clear(m, path) && !v.Tree?
    ensures var after := Get(Tree(Assign(m, path, v, repeated)), p);
      && (p == path ==> after == Some(Put(Get(Tree(m), path), v, repeated)))
      && (p < path ==> after.Some? && after.value.Tree?)
      && (path < p ==> after == None)
      && (!(p <= path) && !(path <= p) ==> after == Get(Tree(m), p))
    decreases |path|
  {
    if p != [] && p[0] == path[0] {
      PrefixTail(p, path);
      PrefixTail(path, p);
      assert path == [path[0]] + path[1..] && p == [p[0]] + p[1..];
      if |path| > 1 {
        var below := if path[0] in m then m[path[0]].children else map[];
        AssignGet(below, path[1..], v, repeated, p[1..]);
      }
    }
  }

  lemma PrefixTail(a: Path, b: Path)
    requires a != [] && b != [] && a[0] == b[0]
    ensures a <= b <==> a[1..] <= b[1..]
  {
  }

  // ---------------------------------------------------------------- any sequence of assignments

  datatype Op = Op(path: Path, value: Value, repeated: bool)

  function Body(ops: seq<Op>): map<string, Node>
    decreases |ops|
  {
    if ops == [] then map[]
    else
      var op := ops[|ops| - 1];
      Assign(Body(ops[..|ops| - 1]), op.path, Atom(op.value), op.repeated)
  }

  /** The values given to p, in order. */
  function Given(ops: seq<Op>, p: Path): seq<Node>
    decreases |ops|
  {
    if ops == [] then []
    else
      var op := ops[|ops| - 1];
      Given(ops[..|ops| - 1], p) + if op.path == p then [Atom(op.value)] else []
  }

  predicate Assigned(ops: seq<Op>, p: Path) {
    exists i :: 0 <= i < |ops| && ops[i].path == p
  }

  predicate OnTheWay(ops: seq<Op>, p: Path) {
    exists i :: 0 <= i < |ops| && p < ops[i].path
  }

  /** The paths are not empty, none is a proper prefix of another, and each is used one way. */
  predicate ValidOps(ops: seq<Op>) {
    && (forall i :: 0 <= i < |ops| ==> ops[i].path != [])
    && (forall i, j :: 0 <= i < |ops| && 0 <= j < |ops| ==> !(ops[i].path < ops[j].path))
    && (forall i, j :: 0 <= i < |ops| && 0 <= j < |ops| && ops[i].path == ops[j].path ==>
          ops[i].repeated == ops[j].repeated)
  }

  /** The list of all values for a repeated flag, the last value otherwise. */
  ghost predicate Holds(ops: seq<Op>, p: Path, n: Node) {
    var given := Given(ops, p);
    given != [] && forall i :: 0 <= i < |ops| && ops[i].path == p ==>
      n == if ops[i].repeated then List(given) else given[|given| - 1]
  }

  /** What the body holds at p. */
  ghost predicate RightAt(ops: seq<Op>, p: Path) {
    var n := Get(Tree(Body(ops)), p);
    if Assigned(ops, p) then n.Some? && Holds(ops, p, n.value)
    else if OnTheWay(ops, p) || p == [] then n.Some? && n.value.Tree?
    else n == None
  }

  lemma {:induction false} ClearIff(m: map<string, Node>, path: Path)
    requires path != [] && (Get(Tree(m), path).Some? ==> !Get(Tree(m), path).value.Tree?)
    requires forall p :: p < path && Get(Tree(m), p).Some? ==> Get(Tree(m), p).value.Tree?
    ensures Clear(m, path)
    decreases |path|
  {
    if path[0] !in m {
    } else if |path| == 1 {
      assert path[1..] == [];
      assert Get(Tree(m), path) == Some(m[path[0]]);
    } else {
      var first := [path[0]];
      assert first < path && first[1..] == [];
      assert Get(Tree(m), first) == Some(m[path[0]]);
      assert m[path[0]].Tree?;
      var below := m[path[0]].children;
      forall p | p < path[1..] && Get(Tree(below), p).Some?
        ensures Get(Tree(below), p).value.Tree?
      {
        var full := first + p;
        assert full[1..] == p && full < path;
        assert Get(Tree(m), full) == Get(Tree(below), p);
      }
      assert Get(Tree(m), path) == Get(Tree(below), path[1..]);
      ClearIff(below, path[1..]);
    }
  }

  lemma Snoc(ops: seq<Op>)
    requires ops != []
    ensures var before, op := ops[..|ops| - 1], ops[|ops| - 1];
      && (forall p :: Assigned(ops, p) <==> Assigned(before, p) || p == op.path)
      && (forall p :: OnTheWay(ops, p) <==> OnTheWay(before, p) || p < op.path)
  {
  }

  lemma {:induction false} GivenIs(ops: seq<Op>, p: Path)
    ensures Given(ops, p) != [] <==> Assigned(ops, p)
    ensures forall n :: n in Given(ops, p) ==> n.Atom?
    decreases |ops|
  {
    if ops != [] {
      GivenIs(ops[..|ops| - 1], p);
      Snoc(ops);
    }
  }

  lemma ValidBefore(ops: seq<Op>)
    requires ValidOps(ops) && ops != []
    ensures ValidOps(ops[..|ops| - 1])
  {
  }

  /** The way to the next path is clear. */
  lemma WayIsClear(ops: seq<Op>, before: seq<Op>)
    requires ValidOps(ops) && ops != [] && before == ops[..|ops| - 1]
    requires forall q :: RightAt(before, q)
    ensures Clear(Body(before), ops[|ops| - 1].path)
  {
    var path := ops[|ops| - 1].path;
    var m := Body(before);
    Snoc(ops);
    forall q | q < path && Get(Tree(m), q).Some?
      ensures Get(Tree(m), q).value.Tree?
    {
      assert RightAt(before, q);
      NoPrefix(ops, q);
    }
    assert RightAt(before, path);
    NoPrefix(ops, path);
    GivenIs(before, path);
    if Assigned(before, path) {
      AssignedIsNoTree(before, path, Get(Tree(m), path).value);
    }
    ClearIff(m, path);
  }

  lemma AssignedIsNoTree(ops: seq<Op>, p: Path, n: Node)
    requires Assigned(ops, p) && Holds(ops, p, n)
    ensures !n.Tree?
  {
    var i :| 0 <= i < |ops| && ops[i].path == p;
    GivenIs(ops, p);
    var given := Given(ops, p);
    assert given[|given| - 1] in given;
  }

  /** The end of the way: the value joins those given before. */
  lemma EndIsRight(ops: seq<Op>)
    requires ValidOps(ops) && ops != []
    requires RightAt(ops[..|ops| - 1], ops[|ops| - 1].path)
    requires !OnTheWay(ops[..|ops| - 1], ops[|ops| - 1].path)
    ensures var op := ops[|ops| - 1];
      Holds(ops, op.path, Put(Get(Tree(Body(ops[..|ops| - 1])), op.path), Atom(op.value), op.repeated))
  {
    var before, op := ops[..|ops| - 1], ops[|ops| - 1];
    GivenIs(before, op.path);
    if Assigned(before, op.path) {
      var i :| 0 <= i < |before| && before[i].path == op.path;
      assert ops[i] == before[i];
    }
    assert Given(ops, op.path) == Given(before, op.path) + [Atom(op.value)];
  }

  lemma ElsewhereIsRight(ops: seq<Op>, p: Path, n: Node)
    requires ops != [] && ops[|ops| - 1].path != p && Holds(ops[..|ops| - 1], p, n)
    ensures Holds(ops, p, n)
  {
  }

  /** Over any sequence of assignments to prefix-free paths the leaves of the body are exactly the
      assigned paths, each with its last value or its list of values, and the nodes above them are
      objects. */
  lemma {:induction false} BodyIsRight(ops: seq<Op>, p: Path)
    requires ValidOps(ops)
    ensures RightAt(ops, p)
    decreases |ops|
  {
    if ops != [] {
      var before, op := ops[..|ops| - 1], ops[|ops| - 1];
      ValidBefore(ops);
      forall q
        ensures RightAt(before, q)
      {
        BodyIsRight(before, q);
      }
      WayIsClear(ops, before);
      AssignGet(Body(before), op.path, Atom(op.value), op.repeated, p);
      Snoc(ops);
      StepIsRight(ops, p);
    }
  }

  lemma StepIsRight(ops: seq<Op>, p: Path)
    requires ValidOps(ops) && ops != []
    requires RightAt(ops[..|ops| - 1], p)
    requires var op := ops[|ops| - 1]; var m := Body(ops[..|ops| - 1]); var after := Get(Tree(Body(ops)), p);
      && (p == op.path ==> after == Some(Put(Get(Tree(m), op.path), Atom(op.value), op.repeated)))
      && (p < op.path ==> after.Some? && after.value.Tree?)
      && (op.path < p ==> after == None)
      && (!(p <= op.path) && !(op.path <= p) ==> after == Get(Tree(m), p))
    ensures RightAt(ops, p)
  {
    var before, op := ops[..|ops| - 1], ops[|ops| - 1];
    Snoc(ops);
    NoPrefix(ops, p);
    if p == op.path {
      EndIsRight(ops);
    } else if Assigned(before, p) && !(p < op.path) && !(op.path < p) {
      ElsewhereIsRight(ops, p, Get(Tree(Body(before)), p).value);
    }
  }

  lemma NoPrefix(ops: seq<Op>, p: Path)
    requires ValidOps(ops) && ops != []
    ensures var path := ops[|ops| - 1].path;
      && (p < path ==> !Assigned(ops, p))
      && (path < p ==> !Assigned(ops, p) && !OnTheWay(ops, p))
      && !OnTheWay(ops[..|ops| - 1], path)
  {
  }

  /** The two halves together: values given through the flags of an object schema come back out of
      the body at the flags' paths. */
  lemma FlagsRoundTrip(s: Schema, ops: seq<Op>, p: Path)
    requires WellFormed(s) && s.Object? && Flatten(s, [], true).Some?
    requires forall i :: 0 <= i < |ops| ==>
               exists f :: f in Flatten(s, [], true).value && f.path == ops[i].path && f.repeated == ops[i].repeated
    ensures RightAt(ops, p)
  {
    FlattenPrefixFree(s, [], true);
    PropsPrefixFree(s, |s.props|, [], true);
    OpsFromFlags(Flatten(s, [], true).value, ops);
    BodyIsRight(ops, p);
  }

  lemma OpsFromFlags(flags: seq<Flag>, ops: seq<Op>)
    requires PrefixFree(flags) && forall f :: f in flags ==> f.path != []
    requires forall i :: 0 <= i < |ops| ==>
               exists f :: f in flags && f.path == ops[i].path && f.repeated == ops[i].repeated
    ensures ValidOps(ops)
  {
  }
}
