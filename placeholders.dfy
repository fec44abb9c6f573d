/** Placeholder collections (`ExecutionInput`, `StepInput`): trees of
    variables that stand for parts of a workflow's or a step's input and
    render as JSONPath expressions. Every variable is an object; the objects
    live in an arena and are named by their index. */
module Placeholders {
  import opened Wrappers
  import opened Dicts
  import opened PyValues
  import InputUtils

  /** The class of a placeholder: the base class, or one of its two concrete subclasses. */
  datatype Kind = BaseKind | ExecutionInputKind | StepInputKind

  /** One placeholder object. A collection root has no name and no parent;
      a variable has both. `store` maps child names to child objects. */
  datatype PNode = PNode(
    kind: Kind,
    name: Option<Key>,
    ty: Value,
    parent: Option<nat>,
    store: Dict<Key, nat>,
    immutable: bool)

  /** The representation invariant of the arena: parents come before their
      children, and a parent's store and its children's parent links agree. */
  predicate NodeOk(nodes: seq<PNode>, i: nat)
    requires i < |nodes|
  {
    var n := nodes[i];
    (n.parent.None? <==> n.name.None?) &&
    (n.parent.Some? ==>
      n.parent.value < i && nodes[n.parent.value].kind == n.kind &&
      Get(nodes[n.parent.value].store, n.name.value) == Some(i)) &&
    KeysUnique(n.store) &&
    (forall e :: e in n.store ==> i < e.1 < |nodes| && nodes[e.1].parent == Some(i) && nodes[e.1].name == Some(e.0))
  }

  predicate Valid(nodes: seq<PNode>)
  {
    forall i :: 0 <= i < |nodes| ==> NodeOk(nodes, i)
  }

  /** `a` is a strict ancestor of `t`: following parent links from `t` reaches `a`. */
  predicate IsAncestor(nodes: seq<PNode>, a: nat, t: nat)
    requires Valid(nodes) && t < |nodes|
    decreases t
  {
    assert NodeOk(nodes, t);
    nodes[t].parent.Some? &&
    (nodes[t].parent.value == a || IsAncestor(nodes, a, nodes[t].parent.value))
  }

  /** The collection root that `t` belongs to. */
  function RootOf(nodes: seq<PNode>, t: nat): (r: nat)
    requires Valid(nodes) && t < |nodes|
    ensures r <= t && nodes[r].parent.None?
    ensures r == t || IsAncestor(nodes, r, t)
    decreases t
  {
    assert NodeOk(nodes, t);
    if nodes[t].parent.None? then t else RootOf(nodes, nodes[t].parent.value)
  }

  // ---------------------------------------------------------------- paths

  /** Reference definition of `_get_path`: the names from the root down to `i`. */
  function PathOf(nodes: seq<PNode>, i: nat): seq<Key>
    requires Valid(nodes) && i < |nodes|
    decreases i
  {
    assert NodeOk(nodes, i);
    if nodes[i].parent.None? then [] else PathOf(nodes, nodes[i].parent.value) + [nodes[i].name.value]
  }

  function Reverse<T>(s: seq<T>): (r: seq<T>)
    ensures |r| == |s| && forall j :: 0 <= j < |s| ==> r[j] == s[|s| - 1 - j]
  {
    if s == [] then [] else Reverse(s[1..]) + [s[0]]
  }

  /** One subscript of a JSONPath: `['name']` for a string, `[n]` for an integer. */
  function Segment(k: Key): string
  {
    match k
    case KStr(s) => "['" + s + "']"
    case KInt(i) => "[" + IntToString(i) + "]"
  }

  /** `_join_path(path)`. */
  function JoinPath(path: seq<Key>): string
  {
    if path == [] then "" else JoinPath(path[..|path| - 1]) + Segment(path[|path| - 1])
  }

  /** The `json_str_template` of each class, applied to the joined path. */
  function ApplyTemplate(kind: Kind, joined: string): string
  {
    match kind
    case BaseKind => joined
    case ExecutionInputKind => "$$.Execution.Input" + joined
    case StepInputKind => "$" + joined
  }

  /** `to_jsonpath()` of placeholder `i`. */
  function JsonPath(nodes: seq<PNode>, i: nat): string
    requires Valid(nodes) && i < |nodes|
  {
    ApplyTemplate(nodes[i].kind, JoinPath(PathOf(nodes, i)))
  }

  /** A variable's JSONPath is its parent's with one more subscript, its own name. */
  lemma ChildJsonPath(nodes: seq<PNode>, c: nat)
    requires Valid(nodes) && c < |nodes| && nodes[c].parent.Some? && NodeOk(nodes, c)
    ensures JsonPath(nodes, c) == JsonPath(nodes, nodes[c].parent.value) + Segment(nodes[c].name.value)
  {
    var p := nodes[c].parent.value;
    var name := nodes[c].name.value;
    var path := PathOf(nodes, c);
    assert path == PathOf(nodes, p) + [name];
    assert path[..|path| - 1] == PathOf(nodes, p);
    assert JoinPath(path) == JoinPath(PathOf(nodes, p)) + Segment(name);
    assert nodes[p].kind == nodes[c].kind;
    TemplateAppend(nodes[c].kind, JoinPath(PathOf(nodes, p)), Segment(name));
  }

  lemma {:induction false} TemplateAppend(kind: Kind, joined: string, more: string)
    ensures ApplyTemplate(kind, joined + more) == ApplyTemplate(kind, joined) + more
  {
    match kind
    case BaseKind =>
    case ExecutionInputKind => assert "$$.Execution.Input" + (joined + more) == ("$$.Execution.Input" + joined) + more;
    case StepInputKind => assert "$" + (joined + more) == ("$" + joined) + more;
  }

  /** A collection root renders as the bare template. */
  lemma RootJsonPath(nodes: seq<PNode>, r: nat)
    requires Valid(nodes) && r < |nodes| && nodes[r].parent.None?
    ensures JsonPath(nodes, r) == ApplyTemplate(nodes[r].kind, "")
  {
  }

  // ---------------------------------------------------------- containment

  /** `contains(t)` of placeholder `i`: some child is `t` or contains it. */
  function ContainsOf(nodes: seq<PNode>, i: nat, t: nat): bool
    requires Valid(nodes) && i < |nodes|
  {
    ContainsFrom(nodes, i, t, 0)
  }

  function ContainsFrom(nodes: seq<PNode>, i: nat, t: nat, j: nat): bool
    requires Valid(nodes) && i < |nodes|
    decreases |nodes| - i, |nodes[i].store| - j
  {
    if j >= |nodes[i].store| then false
    else
      var v := nodes[i].store[j].1;
      assert NodeOk(nodes, i) && nodes[i].store[j] in nodes[i].store;
      if t == v then true
      else if ContainsFrom(nodes, v, t, 0) then true
      else ContainsFrom(nodes, i, t, j + 1)
  }

  lemma AncestorStep(nodes: seq<PNode>, a: nat, v: nat, t: nat)
    requires Valid(nodes) && v < |nodes| && t < |nodes|
    requires nodes[v].parent == Some(a) && (t == v || IsAncestor(nodes, v, t))
    ensures IsAncestor(nodes, a, t)
    decreases t
  {
    if t != v {
      assert NodeOk(nodes, t);
      var p := nodes[t].parent.value;
      if p != v {
        AncestorStep(nodes, a, v, p);
      }
    }
  }

  lemma {:induction false} ContainsFromIsAncestor(nodes: seq<PNode>, i: nat, t: nat, j: nat)
    requires Valid(nodes) && i < |nodes|
    ensures ContainsFrom(nodes, i, t, j) ==> t < |nodes| && IsAncestor(nodes, i, t)
    decreases |nodes| - i, |nodes[i].store| - j
  {
    if j < |nodes[i].store| {
      var v := nodes[i].store[j].1;
      assert NodeOk(nodes, i) && nodes[i].store[j] in nodes[i].store;
      ContainsFromIsAncestor(nodes, v, t, 0);
      ContainsFromIsAncestor(nodes, i, t, j + 1);
      if t == v || ContainsFrom(nodes, v, t, 0) {
        AncestorStep(nodes, i, v, t);
      }
    }
  }

  /** The child of `a` on the way down to its descendant `t`. */
  function ChildToward(nodes: seq<PNode>, a: nat, t: nat): (c: nat)
    requires Valid(nodes) && t < |nodes| && IsAncestor(nodes, a, t)
    ensures c <= t && nodes[c].parent == Some(a) && (c == t || IsAncestor(nodes, c, t))
    decreases t
  {
    assert NodeOk(nodes, t);
    var p := nodes[t].parent.value;
    if p == a then t
    else
      ChildToward(nodes, a, p)
  }

  lemma {:induction false} ContainsFromFinds(nodes: seq<PNode>, i: nat, t: nat, j: nat, c: nat)
    requires Valid(nodes) && i < |nodes| && j <= |nodes[i].store|
    requires exists m :: j <= m < |nodes[i].store| && nodes[i].store[m].1 == c
    requires c == t || (c < |nodes| && ContainsOf(nodes, c, t))
    ensures ContainsFrom(nodes, i, t, j)
    decreases |nodes[i].store| - j
  {
    var v := nodes[i].store[j].1;
    assert NodeOk(nodes, i) && nodes[i].store[j] in nodes[i].store;
    if v != c && t != v && !ContainsFrom(nodes, v, t, 0) {
      ContainsFromFinds(nodes, i, t, j + 1, c);
    }
  }

  lemma {:induction false} AncestorContains(nodes: seq<PNode>, a: nat, t: nat)
    requires Valid(nodes) && t < |nodes| && IsAncestor(nodes, a, t)
    ensures a < |nodes| && ContainsOf(nodes, a, t)
    decreases t - a
  {
    var c := ChildToward(nodes, a, t);
    assert NodeOk(nodes, c);
    var name := nodes[c].name.value;
    GetSpec(nodes[a].store, name);
    var m :| 0 <= m < |nodes[a].store| && nodes[a].store[m] == (name, c);
    if c != t {
      AncestorContains(nodes, c, t);
    }
    ContainsFromFinds(nodes, a, t, 0, c);
  }

  /** `contains` holds exactly for the strict descendants: the variables
      reachable through the store are those whose parent links lead back. */
  lemma ContainsIffDescendant(nodes: seq<PNode>, i: nat, t: nat)
    requires Valid(nodes) && i < |nodes| && t < |nodes|
    ensures ContainsOf(nodes, i, t) <==> IsAncestor(nodes, i, t)
  {
    ContainsFromIsAncestor(nodes, i, t, 0);
    if IsAncestor(nodes, i, t) {
      AncestorContains(nodes, i, t);
    }
  }

  lemma AncestorSameRoot(nodes: seq<PNode>, a: nat, t: nat)
    requires Valid(nodes) && t < |nodes| && IsAncestor(nodes, a, t)
    ensures a < t && RootOf(nodes, a) == RootOf(nodes, t)
    decreases t
  {
    var p := nodes[t].parent.value;
    assert NodeOk(nodes, t);
    if p != a {
      AncestorSameRoot(nodes, a, p);
    }
  }

  /** A collection never contains a variable of another collection, nor itself. */
  lemma ContainsOnlyOwnVariables(nodes: seq<PNode>, i: nat, t: nat)
    requires Valid(nodes) && i < |nodes| && t < |nodes|
    requires ContainsOf(nodes, i, t)
    ensures t != i && RootOf(nodes, t) == RootOf(nodes, i)
  {
    ContainsIffDescendant(nodes, i, t);
    AncestorSameRoot(nodes, i, t);
  }

  // ---------------------------------------------------------------- schema

  /** `get_schema_as_dict()` of placeholder `i`: each child without children
      gives its type (`str` when it has none), each other child its own schema. */
  function SchemaOf(nodes: seq<PNode>, i: nat): Dict<Key, Value>
    requires Valid(nodes) && i < |nodes|
    decreases |nodes| - i, 1
  {
    SchemaItems(nodes, i, 0, [])
  }

  function SchemaItems(nodes: seq<PNode>, i: nat, j: nat, acc: Dict<Key, Value>): Dict<Key, Value>
    requires Valid(nodes) && i < |nodes|
    decreases |nodes| - i, 0, |nodes[i].store| - j
  {
    if j >= |nodes[i].store| then acc
    else
      var (k, c) := nodes[i].store[j];
      assert NodeOk(nodes, i) && nodes[i].store[j] in nodes[i].store;
      var entry := if nodes[c].store == [] then (if Falsy(nodes[c].ty) then VType(TStr) else nodes[c].ty)
                   else VDict(SchemaOf(nodes, c));
      SchemaItems(nodes, i, j + 1, Put(acc, k, entry))
  }

  /** The schema lists the children in store order, under their own names. */
  lemma {:induction false} SchemaItemsKeys(nodes: seq<PNode>, i: nat, j: nat, acc: Dict<Key, Value>)
    requires Valid(nodes) && i < |nodes| && j <= |nodes[i].store|
    requires Keys(acc) == Keys(nodes[i].store[..j])
    ensures Keys(SchemaItems(nodes, i, j, acc)) == Keys(nodes[i].store)
    decreases |nodes[i].store| - j
  {
    var st := nodes[i].store;
    assert NodeOk(nodes, i);
    if j == |st| {
      assert st[..j] == st;
    } else {
      var (k, c) := st[j];
      assert !HasKey(acc, k) by {
        forall m | 0 <= m < |acc| ensures Keys(acc)[m] != k {
          assert Keys(acc)[m] == Keys(st[..j])[m] == st[m].0;
        }
      }
      var entry := if nodes[c].store == [] then (if Falsy(nodes[c].ty) then VType(TStr) else nodes[c].ty)
                   else VDict(SchemaOf(nodes, c));
      PutKeys(acc, k, entry);
      KeysConcat(acc, [(k, entry)]);
      assert st[..j + 1] == st[..j] + [st[j]];
      KeysConcat(st[..j], [st[j]]);
      SchemaItemsKeys(nodes, i, j + 1, Put(acc, k, entry));
    }
  }

  /** `get_schema_as_dict` names exactly the children of the placeholder, in order. */
  lemma SchemaKeysAreChildren(nodes: seq<PNode>, i: nat)
    requires Valid(nodes) && i < |nodes|
    ensures Keys(SchemaOf(nodes, i)) == Keys(nodes[i].store)
  {
    SchemaItemsKeys(nodes, i, 0, []);
  }

  // ------------------------------------------------------------ validation

  /** The result of `validate`: `(valid, keys_missing, keys_type_mismatch)`. */
  datatype ValidationResult = ValidationResult(
    valid: bool,
    keysMissing: Option<seq<Key>>,
    keysTypeMismatch: Option<seq<(Key, Value, PyType)>>)

  /** The schema keys the input does not have, in schema order. */
  function MissingKeys(schema: Dict<Key, Value>, input: Dict<Key, Value>): (r: seq<Key>)
    ensures forall k :: k in r <==> HasKey(schema, k) && !HasKey(input, k)
  {
    if schema == [] then []
    else
      KeysTail(schema);
      (if HasKey(input, schema[0].0) then [] else [schema[0].0]) + MissingKeys(schema[1..], input)
  }

  /** One mismatch record per input key the schema types and the value does
      not belong to, in input order; a schema leaf that is not a class makes
      `isinstance` raise TypeError. */
  function Mismatches(schema: Dict<Key, Value>, input: Dict<Key, Value>): Result<seq<(Key, Value, PyType)>, Error>
  {
    if input == [] then Ok([])
    else
      var (k, v) := input[0];
      var here :- MismatchOf(schema, k, v);
      var rest :- Mismatches(schema, input[1..]);
      Ok(here + rest)
  }

  function MismatchOf(schema: Dict<Key, Value>, k: Key, v: Value): Result<seq<(Key, Value, PyType)>, Error>
  {
    var expected := Get(schema, k);
    if expected.None? then Ok([])
    else if !expected.value.VType? then Err(WrongOperandType)
    else if IsInstance(v, expected.value.t) then Ok([])
    else Ok([(k, expected.value, TypeOf(v))])
  }

  /** The class objects at the leaves of a flattened schema, and the input
      leaves that fit them. */
  ghost predicate Conforms(schema: Dict<Key, Value>, input: Dict<Key, Value>)
  {
    (forall p :: p in schema ==> HasKey(input, p.0)) &&
    (forall p, e :: p in input && Get(schema, p.0) == Some(e) ==> e.VType? && IsInstance(p.1, e.t))
  }

  /** A mismatch is reported exactly for each input key whose value does not
      fit the schema's class; keys the schema does not know are never reported. */
  lemma {:induction false} MismatchesSpec(schema: Dict<Key, Value>, input: Dict<Key, Value>)
    ensures Mismatches(schema, input).Ok? <==>
      forall p, e :: p in input && Get(schema, p.0) == Some(e) ==> e.VType?
    ensures Mismatches(schema, input).Ok? ==>
      ((Mismatches(schema, input).value == []) <==>
        forall p, e :: p in input && Get(schema, p.0) == Some(e) ==> IsInstance(p.1, e.t))
    ensures Mismatches(schema, input).Ok? ==>
      forall m :: m in Mismatches(schema, input).value ==>
        Get(schema, m.0) == Some(m.1) && m.1.VType? &&
        exists p :: p in input && p.0 == m.0 && TypeOf(p.1) == m.2 && !IsInstance(p.1, m.1.t)
  {
    if input != [] {
      MismatchesSpec(schema, input[1..]);
      GetSpec(schema, input[0].0);
    }
  }

  /** `validate(input)` on flattened dicts, the part after the two `flatten` calls. */
  function ValidateFlat(schema: Dict<Key, Value>, input: Dict<Key, Value>): Result<ValidationResult, Error>
  {
    var missing := MissingKeys(schema, input);
    var mismatch :- Mismatches(schema, input);
    Ok(ValidationResult(|missing| == 0 && |mismatch| == 0, Some(missing), Some(mismatch)))
  }

  /** The input is valid exactly when it has every schema key and every
      value under a schema key is an instance of the schema's class. */
  lemma ValidateFlatSpec(schema: Dict<Key, Value>, input: Dict<Key, Value>)
    requires ValidateFlat(schema, input).Ok?
    ensures ValidateFlat(schema, input).value.valid <==> Conforms(schema, input)
  {
    MismatchesSpec(schema, input);
    var missing := MissingKeys(schema, input);
    if |missing| > 0 {
      assert missing[0] in missing;
    }
  }

  /** `validate(input)` of placeholder `i`: `(False, None, None)` for None,
      otherwise both the schema and the input are flattened and compared. */
  function ValidationOf(nodes: seq<PNode>, i: nat, input: Value): Result<ValidationResult, Error>
    requires Valid(nodes) && i < |nodes|
  {
    if input.VNone? then Ok(ValidationResult(false, None, None))
    else
      var schema :- InputUtils.Flatten(VDict(SchemaOf(nodes, i)));
      var flat :- InputUtils.Flatten(input);
      ValidateFlat(schema, flat)
  }

  // ------------------------------------------------------------ the arena

  /** `_is_valid_name`: strings and integers (booleans are not modelled as names). */
  predicate IsValidName(name: Value)
  {
    name.VStr? || name.VInt?
  }

  function NameKey(name: Value): Key
    requires IsValidName(name)
  {
    if name.VStr? then KStr(name.s) else KInt(name.i)
  }

  /** The child of `i` stored under `key`, if there is one. */
  function Lookup(nodes: seq<PNode>, i: nat, key: Key): (c: Option<nat>)
    requires Valid(nodes) && i < |nodes|
    ensures c.None? <==> !HasKey(nodes[i].store, key)
    ensures c.Some? ==> i < c.value < |nodes| && nodes[c.value].parent == Some(i) && nodes[c.value].name == Some(key)
  {
    GetSpec(nodes[i].store, key);
    assert NodeOk(nodes, i);
    Get(nodes[i].store, key)
  }

  /** The arena after `_create_variable(name, parent=i, type=ty)` stored the new
      variable under `name` in `i`'s store. */
  function AddChild(nodes: seq<PNode>, i: nat, key: Key, ty: Value): seq<PNode>
    requires i < |nodes|
  {
    var n: nat := |nodes|;
    var child := PNode(nodes[i].kind, Some(key), if Falsy(ty) then VNone else ty, Some(i), [], false);
    nodes[i := nodes[i].(store := Put(nodes[i].store, key, n))] + [child]
  }

  lemma AddChildAt(nodes: seq<PNode>, i: nat, key: Key, ty: Value)
    requires i < |nodes|
    ensures |AddChild(nodes, i, key, ty)| == |nodes| + 1
    ensures AddChild(nodes, i, key, ty)[i] == nodes[i].(store := Put<Key, nat>(nodes[i].store, key, |nodes|))
    ensures AddChild(nodes, i, key, ty)[|nodes|] == PNode(nodes[i].kind, Some(key), if Falsy(ty) then VNone else ty, Some(i), [], false)
    ensures forall j :: 0 <= j < |nodes| && j != i ==> AddChild(nodes, i, key, ty)[j] == nodes[j]
  {
  }

  /** What `_create_variable` raises, if anything. */
  function CreateError(n: PNode): Option<Error>
  {
    if n.kind == BaseKind then Some(NotImplemented)
    else if n.immutable then Some(SchemaViolation)
    else None
  }

  lemma AddChildValid(nodes: seq<PNode>, i: nat, key: Key, ty: Value)
    requires Valid(nodes) && i < |nodes| && !HasKey(nodes[i].store, key)
    ensures Valid(AddChild(nodes, i, key, ty))
    ensures |AddChild(nodes, i, key, ty)| == |nodes| + 1
    ensures forall j :: 0 <= j < |nodes| ==> AddChild(nodes, i, key, ty)[j].parent == nodes[j].parent
  {
    var nodes' := AddChild(nodes, i, key, ty);
    forall j | 0 <= j < |nodes'| ensures NodeOk(nodes', j) {
      if j == |nodes| {
        NewChildOk(nodes, i, key, ty);
      } else {
        OldNodeOk(nodes, i, key, ty, j);
      }
    }
  }

  /** The store of `i` after the new child `|nodes|` is entered under `key`. */
  lemma {:induction false} GrownStore(nodes: seq<PNode>, i: nat, key: Key, n: nat)
    requires Valid(nodes) && i < |nodes| && !HasKey(nodes[i].store, key) && n == |nodes|
    ensures Put(nodes[i].store, key, n) == nodes[i].store + [(key, n)]
    ensures KeysUnique(Put(nodes[i].store, key, n))
    ensures Get(Put(nodes[i].store, key, n), key) == Some(n)
  {
    var st := nodes[i].store;
    assert NodeOk(nodes, i);
    PutKeys(st, key, n);
    PutUnique(st, key, n);
    PutGet(st, key, n, key);
  }

  lemma {:induction false} NewChildOk(nodes: seq<PNode>, i: nat, key: Key, ty: Value)
    requires Valid(nodes) && i < |nodes| && !HasKey(nodes[i].store, key)
    ensures NodeOk(AddChild(nodes, i, key, ty), |nodes|)
  {
    var nodes' := AddChild(nodes, i, key, ty);
    var n: nat := |nodes|;
    GrownStore(nodes, i, key, n);
    assert NodeOk(nodes, i);
    assert nodes'[n].parent == Some(i) && nodes'[i].store == Put(nodes[i].store, key, n);
  }

  lemma {:induction false} OldNodeOk(nodes: seq<PNode>, i: nat, key: Key, ty: Value, j: nat)
    requires Valid(nodes) && i < |nodes| && !HasKey(nodes[i].store, key) && j < |nodes|
    ensures NodeOk(AddChild(nodes, i, key, ty), j)
  {
    var nodes' := AddChild(nodes, i, key, ty);
    assert NodeOk(nodes, j);
    OldNodeLinks(nodes, i, key, ty, j);
    if j == i {
      var n: nat := |nodes|;
      GrownStore(nodes, i, key, n);
      var st' := Put(nodes[i].store, key, n);
      var child := PNode(nodes[i].kind, Some(key), if Falsy(ty) then VNone else ty, Some(i), [], false);
      assert nodes' == nodes[i := nodes[i].(store := st')] + [child];
      assert nodes'[i] == nodes[i].(store := st');
      forall e | e in st' ensures i < e.1 < |nodes'| && nodes'[e.1].parent == Some(i) && nodes'[e.1].name == Some(e.0) {
        if e !in nodes[i].store {
          assert e == (key, n);
        }
      }
    } else {
      assert nodes'[j].store == nodes[j].store;
    }
  }

  /** Adding a child keeps every old node's own parent link. */
  lemma {:induction false} OldNodeLinks(nodes: seq<PNode>, i: nat, key: Key, ty: Value, j: nat)
    requires Valid(nodes) && i < |nodes| && !HasKey(nodes[i].store, key) && j < |nodes|
    ensures var nodes' := AddChild(nodes, i, key, ty);
      && (nodes'[j].parent.None? <==> nodes'[j].name.None?)
      && (nodes'[j].parent.Some? ==>
            nodes'[j].parent.value < j && nodes'[nodes'[j].parent.value].kind == nodes'[j].kind
            && Get(nodes'[nodes'[j].parent.value].store, nodes'[j].name.value) == Some(j))
  {
    var n: nat := |nodes|;
    var st := nodes[i].store;
    var nodes' := AddChild(nodes, i, key, ty);
    assert NodeOk(nodes, j);
    assert nodes'[j].parent == nodes[j].parent && nodes'[j].name == nodes[j].name && nodes'[j].kind == nodes[j].kind;
    if nodes[j].parent.Some? {
      var p := nodes[j].parent.value;
      if p == i {
        GetSpec(st, nodes[j].name.value);
        PutGet(st, key, n, nodes[j].name.value);
        assert nodes'[p].store == Put(st, key, n);
      } else {
        assert nodes'[p] == nodes[p];
      }
    }
  }

  /** Ancestors come before their descendants in the arena. */
  lemma NoAncestorBelow(nodes: seq<PNode>, a: nat)
    requires Valid(nodes)
    ensures forall j :: 0 <= j < |nodes| && j <= a ==> !IsAncestor(nodes, a, j)
  {
    forall j | 0 <= j < |nodes| && j <= a && IsAncestor(nodes, a, j) ensures false {
      AncestorSameRoot(nodes, a, j);
    }
  }

  /** The arena with `immutable` set on every placeholder of the subtree of `i`. */
  predicate InSubtree(nodes: seq<PNode>, i: nat, j: nat)
    requires Valid(nodes) && j < |nodes|
  {
    j == i || IsAncestor(nodes, i, j)
  }

  lemma AncestorFrame(nodes: seq<PNode>, nodes': seq<PNode>, a: nat, t: nat)
    requires Valid(nodes) && Valid(nodes') && t < |nodes| <= |nodes'|
    requires forall j :: 0 <= j < |nodes| ==> nodes'[j].parent == nodes[j].parent
    ensures IsAncestor(nodes', a, t) == IsAncestor(nodes, a, t)
    decreases t
  {
    if nodes[t].parent.Some? {
      assert NodeOk(nodes, t);
      AncestorFrame(nodes, nodes', a, nodes[t].parent.value);
    }
  }

  /** `Mismatches` with the records found so far in front. */
  function Prepend(found: seq<(Key, Value, PyType)>, rest: Result<seq<(Key, Value, PyType)>, Error>): Result<seq<(Key, Value, PyType)>, Error>
  {
    if rest.Err? then rest else Ok(found + rest.value)
  }

  /** The loop of `validate` gathering `(key, expected, found)` for every
      input value that is not an instance of its schema class. */
  method CollectMismatches(schema: Dict<Key, Value>, flat: Dict<Key, Value>) returns (r: Result<seq<(Key, Value, PyType)>, Error>)
    ensures r == Mismatches(schema, flat)
  {
    var mismatch: seq<(Key, Value, PyType)> := [];
    assert flat[0..] == flat;
    var all := Mismatches(schema, flat);
    assert all.Ok? ==> [] + all.value == all.value;
    for j := 0 to |flat|
      invariant Mismatches(schema, flat) == Prepend(mismatch, Mismatches(schema, flat[j..]))
    {
      var (k, v) := flat[j];
      assert flat[j..][0] == flat[j] && flat[j..][1..] == flat[j + 1..];
      var here := MismatchOf(schema, k, v);
      if here.Err? {
        return Err(here.error);
      }
      var rest := Mismatches(schema, flat[j + 1..]);
      assert Mismatches(schema, flat[j..]) == Prepend(here.value, rest);
      assert rest.Ok? ==> mismatch + (here.value + rest.value) == (mismatch + here.value) + rest.value;
      mismatch := mismatch + here.value;
    }
    assert flat[|flat|..] == [];
    assert mismatch + [] == mismatch;
    return Ok(mismatch);
  }

  /** The arena of placeholder objects, updated in place as variables are
      created and collections frozen. */
  class PlaceholderArena {
    var nodes: seq<PNode>

    constructor ()
      ensures nodes == []
    {
      nodes := [];
    }

    /** `ExecutionInput(schema)`, `StepInput(schema)` or `Placeholder(schema)`:
        a new collection root, then, for a true schema, `_set_schema` and `_make_immutable`. */
    method NewCollection(kind: Kind, schema: Value) returns (r: Result<nat, Error>)
      requires Valid(nodes)
      modifies this
      ensures Valid(nodes) && |old(nodes)| <= |nodes|
      ensures forall j :: 0 <= j < |old(nodes)| ==> nodes[j] == old(nodes[j])
      ensures r.Ok? ==> r.value == |old(nodes)| < |nodes| && nodes[r.value].parent.None? && nodes[r.value].kind == kind
      ensures r.Ok? ==> (nodes[r.value].immutable <==> !Falsy(schema))
      ensures Falsy(schema) ==> r == Ok(|old(nodes)|) && nodes == old(nodes) + [PNode(kind, None, VNone, None, [], false)]
      ensures r.Err? ==> !Falsy(schema)
      ensures r.Ok? && !Falsy(schema) ==>
        forall j :: 0 <= j < |nodes| && InSubtree(nodes, r.value, j) ==> nodes[j].immutable && CreateError(nodes[j]).Some?
      ensures PlainSchema(schema) && kind != BaseKind ==> r.Ok? && SchemaOf(nodes, r.value) == schema.entries
    {
      var root := |nodes|;
      nodes := nodes + [PNode(kind, None, VNone, None, [], false)];
      assert NodeOk(nodes, root);
      forall j | 0 <= j < root ensures NodeOk(nodes, j) {
        assert NodeOk(old(nodes), j);
      }
      if Falsy(schema) {
        return Ok(root);
      }
      if !schema.VDict? {
        return Err(MissingAttribute("items"));
      }
      NoAncestorBelow(nodes, root);
      ghost var pre := PlainSchema(schema) && kind != BaseKind;
      ghost var was := nodes;
      if pre {
        assert PathReady(nodes, root, [], Keys(schema.entries));
      }
      // for the base class, `_create_variable` raises at the first leaf
      var ok, added := SetSchema(root, schema, []);
      if ok.Fail? {
        return Err(ok.error);
      }
      ghost var built := nodes;
      if pre {
        BuiltMatches(was, built, root, schema, added);
      }
      NoAncestorBelow(nodes, root);
      MakeImmutable(root);
      r := Ok(root);
      if pre {
        MatchesFrame(built, nodes, root, schema);
        MatchesSchemaOf(nodes, root, schema);
      }
      forall j | 0 <= j < |nodes| && InSubtree(nodes, root, j)
        ensures nodes[j].immutable && CreateError(nodes[j]).Some?
      {
        SameParents(built, nodes);
        AncestorFrame(built, nodes, root, j);
      }
    }

    /** `get(name, type)` on placeholder `i`: the existing child of that name if
        its type equals `type`, else a new child (typed only when `type` is true). */
    method Get(i: nat, name: Value, ty: Value) returns (r: Result<nat, Error>)
      requires Valid(nodes) && i < |nodes|
      modifies this
      ensures Valid(nodes)
      ensures !IsValidName(name) ==> r == Err(InvalidKeyName) && nodes == old(nodes)
      ensures IsValidName(name) && Lookup(old(nodes), i, NameKey(name)).Some? ==>
        var c := Lookup(old(nodes), i, NameKey(name)).value;
        nodes == old(nodes) &&
        r == (if PyEq(old(nodes)[c].ty, ty) then Ok(c) else Err(KeyTypeConflict))
      ensures IsValidName(name) && Lookup(old(nodes), i, NameKey(name)).None? ==>
        if CreateError(old(nodes)[i]).Some? then r == Err(CreateError(old(nodes)[i]).value) && nodes == old(nodes)
        else r == Ok(|old(nodes)|) && nodes == AddChild(old(nodes), i, NameKey(name), ty)
      ensures |old(nodes)| <= |nodes| && forall j :: 0 <= j < |old(nodes)| && j != i ==> nodes[j] == old(nodes)[j]
      ensures forall j :: 0 <= j < |old(nodes)| ==> nodes[j].parent == old(nodes)[j].parent && nodes[j].kind == old(nodes)[j].kind
      ensures r.Ok? ==> r.value < |nodes| && nodes[r.value].parent == Some(i)
      ensures r.Ok? ==> Lookup(nodes, i, NameKey(name)) == Some(r.value)
    {
      if !IsValidName(name) {
        return Err(InvalidKeyName);
      }
      var key := NameKey(name);
      var existing := Lookup(nodes, i, key);
      if existing.Some? {
        var c := existing.value;
        assert NodeOk(nodes, i);
        if !PyEq(nodes[c].ty, ty) {
          return Err(KeyTypeConflict);
        }
        return Ok(c);
      }
      var err := CreateError(nodes[i]);
      if err.Some? {
        return Err(err.value);
      }
      AddChildValid(nodes, i, key, ty);
      var n: nat := |nodes|;
      PutGet(nodes[i].store, key, n, key);
      r := Ok(n);
      nodes := AddChild(nodes, i, key, ty);
      assert nodes[i].store == Put(old(nodes)[i].store, key, n);
    }

    /** `placeholder[name]`: the existing child of that name, or a new untyped one. */
    method Subscript(i: nat, name: Value) returns (r: Result<nat, Error>)
      requires Valid(nodes) && i < |nodes|
      modifies this
      ensures Valid(nodes)
      ensures !IsValidName(name) ==> r == Err(InvalidKeyName) && nodes == old(nodes)
      ensures IsValidName(name) && Lookup(old(nodes), i, NameKey(name)).Some? ==>
        nodes == old(nodes) && r == Ok(Lookup(old(nodes), i, NameKey(name)).value)
      ensures |old(nodes)| <= |nodes|
      ensures r.Ok? ==> Lookup(nodes, i, NameKey(name)) == Some(r.value)
      ensures IsValidName(name) && Lookup(old(nodes), i, NameKey(name)).None? ==>
        if CreateError(old(nodes)[i]).Some? then r == Err(CreateError(old(nodes)[i]).value) && nodes == old(nodes)
        else r == Ok(|old(nodes)|) && nodes == AddChild(old(nodes), i, NameKey(name), VNone)
    {
      if !IsValidName(name) {
        return Err(InvalidKeyName);
      }
      var key := NameKey(name);
      var existing := Lookup(nodes, i, key);
      if existing.Some? {
        return Ok(existing.value);
      }
      var err := CreateError(nodes[i]);
      if err.Some? {
        return Err(err.value);
      }
      AddChildValid(nodes, i, key, VNone);
      var n: nat := |nodes|;
      PutGet(nodes[i].store, key, n, key);
      r := Ok(n);
      nodes := AddChild(nodes, i, key, VNone);
      assert nodes[i].store == Put(old(nodes)[i].store, key, n);
    }

    /** `_set_schema(schema, path)`: every non-dict leaf is created with its
        value as type, under dict-typed variables for the path leading to it.
        For a plain schema on a path it can walk, nothing fails: the missing
        names of the path are created, and the placeholder at its end gets one
        new child per schema key, in order, shaped like that key's value. */
    method SetSchema(root: nat, schema: Value, path: seq<Key>) returns (r: Outcome<Error>, ghost added: Dict<Key, nat>)
      requires Valid(nodes) && root < |nodes| && schema.VDict?
      modifies this
      ensures Valid(nodes) && |old(nodes)| <= |nodes|
      ensures forall j :: 0 <= j < |old(nodes)| ==> nodes[j].parent == old(nodes)[j].parent && nodes[j].kind == old(nodes)[j].kind
      ensures forall j :: 0 <= j < |old(nodes)| && j != root && !IsAncestor(old(nodes), root, j) ==> nodes[j] == old(nodes)[j]
      ensures PlainSchema(schema) && PathReady(old(nodes), root, path, Keys(schema.entries)) ==>
        && r.Pass?
        && ShapeAfter(old(nodes), nodes, root, path, added)
        && Framed(old(nodes), nodes, root, path)
        && AddedOk(nodes, added, schema.entries)
      decreases schema, 1
    {
      added := [];
      var es := schema.entries;
      ghost var pre := PlainSchema(schema) && PathReady(nodes, root, path, Keys(es));
      assert es[0..] == es && es[..0] == [];
      assert pre ==> Built(nodes, nodes, root, path, es, 0, added);
      var idx := 0;
      while idx < |es|
        invariant 0 <= idx <= |es|
        invariant Valid(nodes) && |old(nodes)| <= |nodes|
        invariant forall j :: 0 <= j < |old(nodes)| ==> nodes[j].parent == old(nodes)[j].parent && nodes[j].kind == old(nodes)[j].kind
        invariant forall j :: 0 <= j < |old(nodes)| && j != root && !IsAncestor(old(nodes), root, j) ==> nodes[j] == old(nodes)[j]
        invariant pre ==> Built(old(nodes), nodes, root, path, es, idx, added)
      {
        var (k, v) := es[idx];
        ghost var mid := nodes;
        assert Keys(es[idx..])[0] == k;
        var ok, c := SetEntry(root, path, k, v, Keys(es[idx..]));
        forall j | 0 <= j < |old(nodes)| && j != root && !IsAncestor(old(nodes), root, j)
          ensures nodes[j] == old(nodes)[j]
        {
          AncestorFrame(old(nodes), mid, root, j);
        }
        if ok.Fail? {
          return ok, added;
        }
        if pre {
          EntryDone(old(nodes), mid, nodes, root, path, es, idx, added, c);
        }
        added := added + [(k, c)];
        idx := idx + 1;
      }
      if pre {
        assert es[..idx] == es;
        assert Built(old(nodes), nodes, root, path, es, idx, added);
      }
      return Pass, added;
    }

    /** One entry `k: v` of `_set_schema`'s loop: a dict recurses one name
        deeper, anything else is created at the end of the path. On a path
        it can walk, with a plain schema or a true value, nothing fails and
        one new child `c`, shaped like `v`, is added at the end of the path. */
    method SetEntry(root: nat, path: seq<Key>, k: Key, v: Value, ghost ks: seq<Key>) returns (r: Outcome<Error>, ghost c: nat)
      requires Valid(nodes) && root < |nodes|
      modifies this
      ensures Valid(nodes) && |old(nodes)| <= |nodes|
      ensures forall j :: 0 <= j < |old(nodes)| ==> nodes[j].parent == old(nodes)[j].parent && nodes[j].kind == old(nodes)[j].kind
      ensures forall j :: 0 <= j < |old(nodes)| && j != root && !IsAncestor(old(nodes), root, j) ==> nodes[j] == old(nodes)[j]
      ensures && PathReady(old(nodes), root, path, ks) && k in ks
              && (if v.VDict? then PlainSchema(v) else !Falsy(v)) ==>
        r.Pass? && Appended(old(nodes), nodes, root, path, k, c, v)
      decreases v, 2
    {
      ghost var pre := PathReady(nodes, root, path, ks) && k in ks && (if v.VDict? then PlainSchema(v) else !Falsy(v));
      if v.VDict? {
        if pre {
          ReadyExtend(nodes, root, path, ks, k, Keys(v.entries));
        }
        ghost var sub;
        r, sub := SetSchema(root, v, path + [k]);
        c := 0;
        if r.Pass? && pre {
          DictEntry(old(nodes), nodes, root, path, k, v, sub);
          c := Resolve(nodes, root, path + [k]).value;
        }
      } else {
        r, c := SetLeaf(root, path, k, v, ks);
      }
    }

    /** The non-dict branch of `_set_schema`'s loop: walk `path`, then
        `get(k, v)` at its end. On a path it can walk, with a true `v`, nothing
        fails, and the new variable `k` typed `v` is added at the end. */
    method SetLeaf(root: nat, path: seq<Key>, k: Key, v: Value, ghost ks: seq<Key>) returns (r: Outcome<Error>, ghost c: nat)
      requires Valid(nodes) && root < |nodes|
      modifies this
      ensures Valid(nodes) && |old(nodes)| <= |nodes|
      ensures forall j :: 0 <= j < |old(nodes)| ==> nodes[j].parent == old(nodes)[j].parent && nodes[j].kind == old(nodes)[j].kind
      ensures forall j :: 0 <= j < |old(nodes)| && j != root && !IsAncestor(old(nodes), root, j) ==> nodes[j] == old(nodes)[j]
      ensures PathReady(old(nodes), root, path, ks) && k in ks && !v.VDict? && !Falsy(v) ==>
        r.Pass? && Appended(old(nodes), nodes, root, path, k, c, v)
    {
      c := 0;
      ghost var pre := PathReady(nodes, root, path, ks) && k in ks && !v.VDict? && !Falsy(v);
      var walked := Walk(root, path, ks);
      if walked.Err? {
        return Fail(walked.error), c;
      }
      var current := walked.value;
      ghost var prev := nodes;
      assert NameKey(KeyValue(k)) == k;
      LeafReadyIf(pre, old(nodes), nodes, root, path, ks, current, k);
      var leaf := Get(current, KeyValue(k), v);
      if leaf.Err? {
        return Fail(leaf.error), c;
      }
      c := leaf.value;
      LeafEntryIf(pre, old(nodes), prev, nodes, root, path, ks, current, k, v, c);
      return Pass, c;
    }

    /** `current = self; for node in path: current = current.get(node, dict)`:
        on a path it can walk, nothing fails, the missing names are created as
        dict-typed variables, and the end of the path is returned. */
    method Walk(root: nat, path: seq<Key>, ghost ks: seq<Key>) returns (r: Result<nat, Error>)
      requires Valid(nodes) && root < |nodes|
      modifies this
      ensures Valid(nodes) && |old(nodes)| <= |nodes|
      ensures r.Ok? ==> r.value < |nodes| && (r.value == root || r.value >= |old(nodes)| || IsAncestor(old(nodes), root, r.value))
      ensures forall j :: 0 <= j < |old(nodes)| ==> nodes[j].parent == old(nodes)[j].parent && nodes[j].kind == old(nodes)[j].kind
      ensures forall j :: 0 <= j < |old(nodes)| && j != root && !IsAncestor(old(nodes), root, j) ==> nodes[j] == old(nodes)[j]
      ensures PathReady(old(nodes), root, path, ks) ==> r.Ok? && Walked(old(nodes), nodes, root, path, ks, |path|, r.value)
    {
      ghost var pre := PathReady(nodes, root, path, ks);
      var current: nat := root;
      var p := 0;
      assert path[..0] == [];
      assert pre ==> Walked(nodes, nodes, root, path, ks, 0, current);
      while p < |path|
        invariant 0 <= p <= |path|
        invariant Valid(nodes) && |old(nodes)| <= |nodes| && current < |nodes|
        invariant current == root || current >= |old(nodes)| || IsAncestor(old(nodes), root, current)
        invariant forall j :: 0 <= j < |old(nodes)| ==> nodes[j].parent == old(nodes)[j].parent && nodes[j].kind == old(nodes)[j].kind
        invariant forall j :: 0 <= j < |old(nodes)| && j != root && !IsAncestor(old(nodes), root, j) ==> nodes[j] == old(nodes)[j]
        invariant pre ==> Walked(old(nodes), nodes, root, path, ks, p, current)
      {
        ghost var prev := nodes;
        assert NameKey(KeyValue(path[p])) == path[p];
        ReadyHereIf(pre, nodes, root, path, ks, p, current);
        var next := Get(current, KeyValue(path[p]), VType(TDict));
        if next.Err? {
          return Err(next.error);
        }
        WalkStepIf(pre, old(nodes), prev, nodes, root, path, ks, p, current, next.value);
        ChildOfSubtree(nodes, old(nodes), root, current, next.value);
        current := next.value;
        p := p + 1;
      }
      assert path[..p] == path;
      assert pre ==> Walked(old(nodes), nodes, root, path, ks, |path|, current);
      return Ok(current);
    }

    /** `_make_immutable()`: the placeholder and all its descendants become immutable. */
    method MakeImmutable(i: nat)
      requires Valid(nodes) && i < |nodes|
      modifies this
      ensures Valid(nodes) && |nodes| == |old(nodes)|
      ensures forall j :: 0 <= j < |nodes| ==>
        nodes[j] == old(nodes)[j].(immutable := old(nodes)[j].immutable || InSubtree(old(nodes), i, j))
      decreases |nodes| - i
    {
      var store := nodes[i].store;
      assert NodeOk(nodes, i);
      var m := 0;
      while m < |store|
        invariant 0 <= m <= |store| && Valid(nodes) && |nodes| == |old(nodes)|
        invariant nodes[i].store == store
        invariant forall j :: 0 <= j < |nodes| ==>
          nodes[j] == old(nodes)[j].(immutable := old(nodes)[j].immutable || SubtreeOfFirst(old(nodes), i, m, j))
      {
        ghost var before := nodes;
        var c := store[m].1;
        assert store[m] in old(nodes)[i].store;
        MakeImmutable(c);
        forall j | 0 <= j < |nodes|
          ensures nodes[j] == old(nodes)[j].(immutable := old(nodes)[j].immutable || SubtreeOfFirst(old(nodes), i, m + 1, j))
        {
          SameParents(old(nodes), before);
          AncestorFrame(old(nodes), before, c, j);
        }
        m := m + 1;
      }
      forall j | 0 <= j < |nodes| ensures SubtreeOfFirst(old(nodes), i, |store|, j) <==> (j != i && InSubtree(old(nodes), i, j)) {
        SubtreeByChildren(old(nodes), i, j);
      }
      nodes := nodes[i := nodes[i].(immutable := true)];
      forall j | 0 <= j < |nodes| ensures NodeOk(nodes, j) {
        assert NodeOk(old(nodes), j);
      }
    }

    /** `contains(placeholder)`: search the children, and their descendants, for `t`. */
    method Contains(i: nat, t: nat) returns (b: bool)
      requires Valid(nodes) && i < |nodes|
      ensures b == ContainsOf(nodes, i, t)
      ensures b <==> t < |nodes| && IsAncestor(nodes, i, t)
      decreases |nodes| - i
    {
      ContainsFromIsAncestor(nodes, i, t, 0);
      if t < |nodes| {
        ContainsIffDescendant(nodes, i, t);
      }
      var st := nodes[i].store;
      assert NodeOk(nodes, i);
      for j := 0 to |st|
        invariant ContainsFrom(nodes, i, t, j) == ContainsOf(nodes, i, t)
      {
        var v := st[j].1;
        assert st[j] in st;
        if t == v {
          return true;
        }
        var sub := Contains(v, t);
        if sub {
          return true;
        }
      }
      return false;
    }

    /** `get_schema_as_dict()`: one entry per child, its type for a leaf, its schema otherwise. */
    method GetSchemaAsDict(i: nat) returns (d: Dict<Key, Value>)
      requires Valid(nodes) && i < |nodes|
      ensures d == SchemaOf(nodes, i)
      ensures Keys(d) == Keys(nodes[i].store)
      decreases |nodes| - i
    {
      SchemaKeysAreChildren(nodes, i);
      var st := nodes[i].store;
      assert NodeOk(nodes, i);
      d := [];
      for j := 0 to |st|
        invariant SchemaItems(nodes, i, j, d) == SchemaOf(nodes, i)
      {
        var (k, c) := st[j];
        assert st[j] in st;
        var entry;
        if nodes[c].store == [] {
          entry := if Falsy(nodes[c].ty) then VType(TStr) else nodes[c].ty;
        } else {
          var sub := GetSchemaAsDict(c);
          entry := VDict(sub);
        }
        assert SchemaItems(nodes, i, j, d) == SchemaItems(nodes, i, j + 1, Put(d, k, entry));
        d := Put(d, k, entry);
      }
    }

    /** `validate(input)`: the schema keys the input lacks and the input values
        whose type does not match, found by one pass over the flattened input. */
    method Validate(i: nat, input: Value) returns (r: Result<ValidationResult, Error>)
      requires Valid(nodes) && i < |nodes|
      ensures r == ValidationOf(nodes, i, input)
      ensures r.Ok? && input.VNone? ==> !r.value.valid
      ensures r.Ok? && !input.VNone? ==>
        (r.value.valid <==> Conforms(InputUtils.Flatten(VDict(SchemaOf(nodes, i))).value, InputUtils.Flatten(input).value))
    {
      if input.VNone? {
        return Ok(ValidationResult(false, None, None));
      }
      var sd := GetSchemaAsDict(i);
      var schema :- InputUtils.Flatten(VDict(sd));
      var flat :- InputUtils.Flatten(input);
      var missing := MissingKeys(schema, flat);
      var mismatch :- CollectMismatches(schema, flat);
      r := Ok(ValidationResult(|missing| == 0 && |mismatch| == 0, Some(missing), Some(mismatch)));
      ValidateFlatSpec(schema, flat);
    }

    /** `_get_path()`: walk the parent links up to the root, then reverse. */
    method GetPath(i: nat) returns (path: seq<Key>)
      requires Valid(nodes) && i < |nodes|
      ensures path == PathOf(nodes, i)
    {
      var rev: seq<Key> := [];
      var node: nat := i;
      while nodes[node].name.Some?
        invariant node < |nodes|
        invariant PathOf(nodes, i) == PathOf(nodes, node) + Reverse(rev)
        decreases node
      {
        assert NodeOk(nodes, node);
        var p := nodes[node].parent.value;
        calc {
          PathOf(nodes, node) + Reverse(rev);
          PathOf(nodes, p) + [nodes[node].name.value] + Reverse(rev);
          { assert Reverse(rev + [nodes[node].name.value]) == [nodes[node].name.value] + Reverse(rev); }
          PathOf(nodes, p) + Reverse(rev + [nodes[node].name.value]);
        }
        rev := rev + [nodes[node].name.value];
        node := p;
      }
      assert NodeOk(nodes, node);
      path := Reverse(rev);
    }

    /** `to_jsonpath()`: the class template applied to the joined path. */
    method ToJsonPath(i: nat) returns (s: string)
      requires Valid(nodes) && i < |nodes|
      ensures s == JsonPath(nodes, i)
    {
      var path := GetPath(i);
      var joined := "";
      for m := 0 to |path|
        invariant joined == JoinPath(path[..m])
      {
        assert path[..m + 1][..m] == path[..m];
        joined := joined + Segment(path[m]);
      }
      assert path[..|path|] == path;
      s := ApplyTemplate(nodes[i].kind, joined);
    }
  }

  lemma SameParents(a: seq<PNode>, b: seq<PNode>)
    requires |a| == |b| && forall j :: 0 <= j < |a| ==> b[j] == a[j].(immutable := b[j].immutable)
    ensures forall j :: 0 <= j < |a| ==> b[j].parent == a[j].parent
  {
  }

  /** `j` lies in the subtree of one of the first `m` children of `i`. */
  predicate SubtreeOfFirst(nodes: seq<PNode>, i: nat, m: nat, j: nat)
    requires Valid(nodes) && i < |nodes| && j < |nodes|
  {
    exists q :: 0 <= q < m && q < |nodes[i].store| && nodes[i].store[q].1 < |nodes| &&
      InSubtree(nodes, nodes[i].store[q].1, j)
  }

  lemma SubtreeByChildren(nodes: seq<PNode>, i: nat, j: nat)
    requires Valid(nodes) && i < |nodes| && j < |nodes|
    ensures SubtreeOfFirst(nodes, i, |nodes[i].store|, j) <==> (j != i && InSubtree(nodes, i, j))
  {
    assert NodeOk(nodes, i);
    if SubtreeOfFirst(nodes, i, |nodes[i].store|, j) {
      var q :| 0 <= q < |nodes[i].store| && nodes[i].store[q].1 < |nodes| && InSubtree(nodes, nodes[i].store[q].1, j);
      var c := nodes[i].store[q].1;
      assert nodes[i].store[q] in nodes[i].store;
      AncestorStep(nodes, i, c, j);
      AncestorSameRoot(nodes, i, j);
    }
    if j != i && InSubtree(nodes, i, j) {
      var c := ChildToward(nodes, i, j);
      assert NodeOk(nodes, c);
      GetSpec(nodes[i].store, nodes[c].name.value);
      var q :| 0 <= q < |nodes[i].store| && nodes[i].store[q] == (nodes[c].name.value, c);
    }
  }

  lemma ChildOfSubtree(nodes: seq<PNode>, before: seq<PNode>, root: nat, current: nat, next: nat)
    requires Valid(nodes) && Valid(before) && |before| <= |nodes| && current < |nodes| && next < |nodes|
    requires root < |before|
    requires forall j :: 0 <= j < |before| ==> nodes[j].parent == before[j].parent
    requires current == root || current >= |before| || IsAncestor(before, root, current)
    requires nodes[next].parent == Some(current) || next == current
    ensures next == root || next >= |before| || IsAncestor(before, root, next)
  {
    if next < |before| && next != current {
      assert before[next].parent == Some(current);
      assert NodeOk(before, next);
    }
  }

  // ------------------------------------------------- building from a schema

  /** A schema that `_set_schema` reproduces exactly: a non-empty dict with
      distinct keys, each mapped to a schema of the same kind or to a true
      non-dict value (the type the variable gets). */
  predicate PlainSchema(s: Value)
    decreases s
  {
    && s.VDict? && s.entries != [] && KeysUnique(s.entries)
    && forall j :: 0 <= j < |s.entries| ==>
         if s.entries[j].1.VDict? then PlainSchema(s.entries[j].1) else !Falsy(s.entries[j].1)
  }

  /** The subtree of placeholder `c` has the shape of `d`: for a dict, the
      children of `c` carry the keys of `d` in order, each matching its value;
      otherwise `c` has no children and `d` as its type. */
  predicate Matches(nodes: seq<PNode>, c: nat, d: Value)
    requires c < |nodes|
    decreases d
  {
    if d.VDict? then
      && Keys(nodes[c].store) == Keys(d.entries)
      && forall j :: 0 <= j < |d.entries| ==>
           nodes[c].store[j].1 < |nodes| && Matches(nodes, nodes[c].store[j].1, d.entries[j].1)
    else nodes[c].store == [] && nodes[c].ty == d
  }

  /** A placeholder shaped like a plain schema gives that schema back. */
  lemma {:induction false} MatchesSchemaOf(nodes: seq<PNode>, c: nat, d: Value)
    requires Valid(nodes) && c < |nodes| && PlainSchema(d) && Matches(nodes, c, d)
    ensures SchemaOf(nodes, c) == d.entries
    decreases d, 1
  {
    MatchesItems(nodes, c, d, 0);
    assert d.entries[..0] == [];
  }

  lemma {:induction false} MatchesItems(nodes: seq<PNode>, c: nat, d: Value, j: nat)
    requires Valid(nodes) && c < |nodes| && PlainSchema(d) && Matches(nodes, c, d) && j <= |d.entries|
    ensures SchemaItems(nodes, c, j, d.entries[..j]) == d.entries
    decreases d, 0, |d.entries| - j
  {
    if j == |d.entries| {
      assert d.entries[..j] == d.entries;
    } else {
      var (k, ch) := nodes[c].store[j];
      assert Keys(nodes[c].store)[j] == Keys(d.entries)[j];
      var sub := d.entries[j].1;
      assert sub < d;
      if sub.VDict? {
        MatchesSchemaOf(nodes, ch, sub);
        assert nodes[ch].store != [] by {
          assert |Keys(nodes[ch].store)| == |Keys(sub.entries)|;
        }
      }
      var entry := if nodes[ch].store == [] then (if Falsy(nodes[ch].ty) then VType(TStr) else nodes[ch].ty)
                   else VDict(SchemaOf(nodes, ch));
      assert entry == sub;
      KeysUniqueNotBefore(d.entries, j);
      PutKeys(d.entries[..j], k, entry);
      assert (k, entry) == d.entries[j];
      assert d.entries[..j + 1] == d.entries[..j] + [d.entries[j]];
      MatchesItems(nodes, c, d, j + 1);
    }
  }

  /** With distinct keys, the key at `j` does not occur before `j`. */
  lemma KeysUniqueNotBefore<K, V>(d: Dict<K, V>, j: nat)
    requires KeysUnique(d) && j < |d|
    ensures !HasKey(d[..j], d[j].0)
    ensures forall k :: k in Keys(d[j + 1..]) ==> k in Keys(d[j..]) && k != d[j].0
  {
    assert Keys(d) == Keys(d[..j]) + Keys(d[j..]) by {
      assert d == d[..j] + d[j..];
      KeysConcat(d[..j], d[j..]);
    }
    assert Keys(d[j..]) == [d[j].0] + Keys(d[j + 1..]) by {
      assert d[j..] == [d[j]] + d[j + 1..];
      KeysConcat([d[j]], d[j + 1..]);
    }
  }

  /** Matching depends only on the stores and types from `a` on. */
  lemma {:induction false} MatchesFrame(before: seq<PNode>, after: seq<PNode>, a: nat, d: Value)
    requires Valid(before) && a < |before| <= |after|
    requires forall x :: a <= x < |before| ==> after[x].store == before[x].store && after[x].ty == before[x].ty
    requires Matches(before, a, d)
    ensures Matches(after, a, d)
    decreases d
  {
    if d.VDict? {
      assert NodeOk(before, a);
      forall j | 0 <= j < |d.entries|
        ensures after[a].store[j].1 < |after| && Matches(after, after[a].store[j].1, d.entries[j].1)
      {
        assert before[a].store[j] in before[a].store;
        MatchesFrame(before, after, before[a].store[j].1, d.entries[j].1);
      }
    }
  }

  /** The placeholder reached from `i` through the names of `path`, if they all exist. */
  function Resolve(nodes: seq<PNode>, i: nat, path: seq<Key>): (r: Option<nat>)
    requires Valid(nodes) && i < |nodes|
    ensures r.Some? ==> i <= r.value < |nodes|
    decreases |path|
  {
    if path == [] then Some(i)
    else match Lookup(nodes, i, path[0])
      case None => None
      case Some(c) => Resolve(nodes, c, path[1..])
  }

  /** `x` is one of the placeholders met going from `i` down `path`. */
  predicate OnPath(nodes: seq<PNode>, i: nat, path: seq<Key>, x: nat)
    requires Valid(nodes) && i < |nodes|
    decreases |path|
  {
    x == i || (path != [] && Lookup(nodes, i, path[0]).Some? && OnPath(nodes, Lookup(nodes, i, path[0]).value, path[1..], x))
  }

  /** Only placeholders on the path from `i` differ between the two arenas. */
  predicate Framed(was: seq<PNode>, now: seq<PNode>, i: nat, path: seq<Key>)
    requires Valid(was) && i < |was| <= |now|
  {
    forall x :: 0 <= x < |was| && !OnPath(was, i, path, x) ==> now[x] == was[x]
  }

  /** `now` is `was` after `_set_schema` went from `i` down `path` and created
      `added` at its end: each placeholder on the path keeps everything but its
      store; one that was missing was created (`FreshChain`); and the one at the
      end got `added` after its old children. */
  predicate ShapeAfter(was: seq<PNode>, now: seq<PNode>, i: nat, path: seq<Key>, added: Dict<Key, nat>)
    requires Valid(was) && Valid(now) && i < |was| <= |now|
    decreases |path|
  {
    && now[i] == was[i].(store := now[i].store)
    && if path == [] then now[i].store == was[i].store + added
       else match Lookup(was, i, path[0])
         case Some(c) => now[i].store == was[i].store && ShapeAfter(was, now, c, path[1..], added)
         case None =>
           && Lookup(now, i, path[0]).Some?
           && |was| <= Lookup(now, i, path[0]).value
           && now[i].store == was[i].store + [(path[0], Lookup(now, i, path[0]).value)]
           && FreshChain(now, Lookup(now, i, path[0]).value, path[1..], added)
  }

  /** A chain of dict-typed, mutable variables created down `path` from `c`,
      each with one child, the last with the children `added`. */
  predicate FreshChain(now: seq<PNode>, c: nat, path: seq<Key>, added: Dict<Key, nat>)
    requires Valid(now) && c < |now|
    decreases |path|
  {
    && now[c].ty == VType(TDict) && !now[c].immutable && now[c].kind != BaseKind
    && if path == [] then now[c].store == added
       else
         && Lookup(now, c, path[0]).Some?
         && now[c].store == [(path[0], Lookup(now, c, path[0]).value)]
         && FreshChain(now, Lookup(now, c, path[0]).value, path[1..], added)
  }

  /** `_set_schema` can walk `path` from `i` and create the names `ks` at its
      end: the placeholders already on the path are mutable, of a concrete
      class and dict-typed below `i`, and the last one has none of `ks`. */
  predicate PathReady(nodes: seq<PNode>, i: nat, path: seq<Key>, ks: seq<Key>)
    requires Valid(nodes) && i < |nodes|
    decreases |path|
  {
    && !nodes[i].immutable && nodes[i].kind != BaseKind
    && if path == [] then forall k :: k in ks ==> !HasKey(nodes[i].store, k)
       else match Lookup(nodes, i, path[0])
         case None => true
         case Some(c) => nodes[c].ty == VType(TDict) && PathReady(nodes, c, path[1..], ks)
  }

  /** The children `added` match the schema entries `es`, key by key. */
  predicate AddedOk(nodes: seq<PNode>, added: Dict<Key, nat>, es: Dict<Key, Value>)
  {
    && Keys(added) == Keys(es)
    && forall m :: 0 <= m < |added| ==> added[m].1 < |nodes| && Matches(nodes, added[m].1, es[m].1)
  }

  lemma {:induction false} OnPathGe(nodes: seq<PNode>, i: nat, path: seq<Key>, x: nat)
    requires Valid(nodes) && i < |nodes|
    ensures OnPath(nodes, i, path, x) ==> i <= x
    decreases |path|
  {
    if path != [] && Lookup(nodes, i, path[0]).Some? {
      OnPathGe(nodes, Lookup(nodes, i, path[0]).value, path[1..], x);
    }
  }

  lemma {:induction false} OnPathLe(nodes: seq<PNode>, i: nat, path: seq<Key>, x: nat)
    requires Valid(nodes) && i < |nodes| && Resolve(nodes, i, path).Some?
    ensures OnPath(nodes, i, path, x) ==> x <= Resolve(nodes, i, path).value
    decreases |path|
  {
    if path != [] {
      OnPathLe(nodes, Lookup(nodes, i, path[0]).value, path[1..], x);
    }
  }

  lemma {:induction false} OnPathExtend(nodes: seq<PNode>, i: nat, path: seq<Key>, k: Key, x: nat)
    requires Valid(nodes) && i < |nodes|
    ensures OnPath(nodes, i, path, x) ==> OnPath(nodes, i, path + [k], x)
    decreases |path|
  {
    var pk := path + [k];
    if path != [] {
      assert pk[0] == path[0] && pk[1..] == path[1..] + [k];
      if Lookup(nodes, i, path[0]).Some? {
        OnPathExtend(nodes, Lookup(nodes, i, path[0]).value, path[1..], k, x);
      }
    }
  }

  lemma {:induction false} OnPathDrop(nodes: seq<PNode>, i: nat, path: seq<Key>, k: Key, x: nat)
    requires Valid(nodes) && i < |nodes| && Resolve(nodes, i, path + [k]).None?
    ensures OnPath(nodes, i, path + [k], x) ==> OnPath(nodes, i, path, x)
    decreases |path|
  {
    var pk := path + [k];
    if path == [] {
      assert pk[0] == k && pk[1..] == [];
    } else {
      assert pk[0] == path[0] && pk[1..] == path[1..] + [k];
      if Lookup(nodes, i, path[0]).Some? {
        OnPathDrop(nodes, Lookup(nodes, i, path[0]).value, path[1..], k, x);
      }
    }
  }

  lemma {:induction false} ResolveIsOnPath(nodes: seq<PNode>, i: nat, path: seq<Key>)
    requires Valid(nodes) && i < |nodes| && Resolve(nodes, i, path).Some?
    ensures OnPath(nodes, i, path, Resolve(nodes, i, path).value)
    decreases |path|
  {
    if path != [] {
      ResolveIsOnPath(nodes, Lookup(nodes, i, path[0]).value, path[1..]);
    }
  }

  /** An old placeholder on the path in the new arena was on it in the old one. */
  lemma {:induction false} OnPathShape(was: seq<PNode>, now: seq<PNode>, i: nat, path: seq<Key>, added: Dict<Key, nat>, x: nat)
    requires Valid(was) && Valid(now) && i < |was| <= |now| && x < |was|
    requires ShapeAfter(was, now, i, path, added)
    ensures OnPath(now, i, path, x) ==> OnPath(was, i, path, x)
    decreases |path|
  {
    if path != [] {
      match Lookup(was, i, path[0]) {
        case Some(c) =>
          OnPathShape(was, now, c, path[1..], added, x);
        case None =>
          OnPathGe(now, Lookup(now, i, path[0]).value, path[1..], x);
      }
    }
  }

  /** The end of the path, and the children added there. */
  lemma {:induction false} ShapeEnd(was: seq<PNode>, now: seq<PNode>, i: nat, path: seq<Key>, added: Dict<Key, nat>)
    requires Valid(was) && Valid(now) && i < |was| <= |now|
    requires ShapeAfter(was, now, i, path, added)
    ensures Resolve(now, i, path).Some?
    ensures forall e :: e in added ==> e in now[Resolve(now, i, path).value].store
    decreases |path|
  {
    if path != [] {
      match Lookup(was, i, path[0]) {
        case Some(c) =>
          ShapeEnd(was, now, c, path[1..], added);
        case None =>
          FreshEnd(now, Lookup(now, i, path[0]).value, path[1..], added);
      }
    }
  }

  lemma {:induction false} FreshEnd(now: seq<PNode>, c: nat, path: seq<Key>, added: Dict<Key, nat>)
    requires Valid(now) && c < |now| && FreshChain(now, c, path, added)
    ensures Resolve(now, c, path).Some?
    ensures forall e :: e in added ==> e in now[Resolve(now, c, path).value].store
    decreases |path|
  {
    if path != [] {
      FreshEnd(now, Lookup(now, c, path[0]).value, path[1..], added);
    }
  }

  /** Two walks down the same path add up. */
  lemma {:induction false} ShapeCompose(was: seq<PNode>, mid: seq<PNode>, now: seq<PNode>, i: nat, path: seq<Key>, a: Dict<Key, nat>, b: Dict<Key, nat>)
    requires Valid(was) && Valid(mid) && Valid(now) && i < |was| <= |mid| <= |now|
    requires ShapeAfter(was, mid, i, path, a) && ShapeAfter(mid, now, i, path, b)
    ensures ShapeAfter(was, now, i, path, a + b)
    decreases |path|
  {
    if path == [] {
      assert was[i].store + a + b == was[i].store + (a + b);
    } else {
      match Lookup(was, i, path[0]) {
        case Some(c) =>
          ShapeCompose(was, mid, now, c, path[1..], a, b);
        case None =>
          FreshCompose(mid, now, Lookup(mid, i, path[0]).value, path[1..], a, b);
      }
    }
  }

  lemma {:induction false} FreshCompose(mid: seq<PNode>, now: seq<PNode>, c: nat, path: seq<Key>, a: Dict<Key, nat>, b: Dict<Key, nat>)
    requires Valid(mid) && Valid(now) && c < |mid| <= |now|
    requires FreshChain(mid, c, path, a) && ShapeAfter(mid, now, c, path, b)
    ensures FreshChain(now, c, path, a + b)
    decreases |path|
  {
    if path != [] {
      FreshCompose(mid, now, Lookup(mid, c, path[0]).value, path[1..], a, b);
    }
  }

  /** A walk down `path + [k]` that created `k` is a walk down `path` that
      added `k`, whose new placeholder got the children. */
  lemma {:induction false} ShapeJoin(was: seq<PNode>, now: seq<PNode>, i: nat, path: seq<Key>, k: Key, added: Dict<Key, nat>)
    requires Valid(was) && Valid(now) && i < |was| <= |now|
    requires Resolve(was, i, path + [k]).None? && ShapeAfter(was, now, i, path + [k], added)
    ensures Resolve(now, i, path + [k]).Some?
    ensures ShapeAfter(was, now, i, path, [(k, Resolve(now, i, path + [k]).value)])
    ensures now[Resolve(now, i, path + [k]).value].store == added
    decreases |path|
  {
    var pk := path + [k];
    if path == [] {
      assert pk[0] == k && pk[1..] == [];
    } else {
      assert pk[0] == path[0] && pk[1..] == path[1..] + [k];
      match Lookup(was, i, path[0]) {
        case Some(c) =>
          ShapeJoin(was, now, c, path[1..], k, added);
        case None =>
          FreshJoin(now, Lookup(now, i, path[0]).value, path[1..], k, added);
      }
    }
  }

  lemma {:induction false} FreshJoin(now: seq<PNode>, c: nat, path: seq<Key>, k: Key, added: Dict<Key, nat>)
    requires Valid(now) && c < |now| && FreshChain(now, c, path + [k], added)
    ensures Resolve(now, c, path + [k]).Some?
    ensures FreshChain(now, c, path, [(k, Resolve(now, c, path + [k]).value)])
    ensures now[Resolve(now, c, path + [k]).value].store == added
    decreases |path|
  {
    var pk := path + [k];
    if path == [] {
      assert pk[0] == k && pk[1..] == [];
    } else {
      assert pk[0] == path[0] && pk[1..] == path[1..] + [k];
      FreshJoin(now, Lookup(now, c, path[0]).value, path[1..], k, added);
    }
  }

  /** The converse: a new dict-typed `k` added at the end of `path` extends the path. */
  lemma {:induction false} ShapeSplit(was: seq<PNode>, now: seq<PNode>, i: nat, path: seq<Key>, k: Key, n: nat, added: Dict<Key, nat>)
    requires Valid(was) && Valid(now) && i < |was| <= n < |now|
    requires Resolve(was, i, path + [k]).None? && ShapeAfter(was, now, i, path, [(k, n)])
    requires FreshChain(now, n, [], added)
    ensures ShapeAfter(was, now, i, path + [k], added)
    decreases |path|
  {
    var pk := path + [k];
    if path == [] {
      assert pk[0] == k && pk[1..] == [];
      PutKeys(was[i].store, k, n);
      PutGet(was[i].store, k, n, k);
    } else {
      assert pk[0] == path[0] && pk[1..] == path[1..] + [k];
      match Lookup(was, i, path[0]) {
        case Some(c) =>
          ShapeSplit(was, now, c, path[1..], k, n, added);
        case None =>
          FreshSplit(now, Lookup(now, i, path[0]).value, path[1..], k, n, added);
      }
    }
  }

  lemma {:induction false} FreshSplit(now: seq<PNode>, c: nat, path: seq<Key>, k: Key, n: nat, added: Dict<Key, nat>)
    requires Valid(now) && c < |now| && n < |now|
    requires FreshChain(now, c, path, [(k, n)]) && FreshChain(now, n, [], added)
    ensures FreshChain(now, c, path + [k], added)
    decreases |path|
  {
    var pk := path + [k];
    if path == [] {
      assert pk[0] == k && pk[1..] == [];
      PutGet([], k, n, k);
      assert Put([], k, n) == [(k, n)];
    } else {
      assert pk[0] == path[0] && pk[1..] == path[1..] + [k];
      FreshSplit(now, Lookup(now, c, path[0]).value, path[1..], k, n, added);
    }
  }

  /** A new child under the end of the path is one more added child. */
  lemma {:induction false} ShapeAddLeaf(was: seq<PNode>, now: seq<PNode>, i: nat, path: seq<Key>, added: Dict<Key, nat>, key: Key, ty: Value)
    requires Valid(was) && Valid(now) && i < |was| <= |now|
    requires ShapeAfter(was, now, i, path, added) && Resolve(now, i, path).Some?
    requires !HasKey(now[Resolve(now, i, path).value].store, key)
    ensures Valid(AddChild(now, Resolve(now, i, path).value, key, ty))
    ensures ShapeAfter(was, AddChild(now, Resolve(now, i, path).value, key, ty), i, path, added + [(key, |now|)])
    decreases |path|
  {
    var e := Resolve(now, i, path).value;
    AddChildValid(now, e, key, ty);
    GrownStore(now, e, key, |now|);
    if path == [] {
      assert was[i].store + added + [(key, |now|)] == was[i].store + (added + [(key, |now|)]);
    } else {
      match Lookup(was, i, path[0]) {
        case Some(c) =>
          ShapeAddLeaf(was, now, c, path[1..], added, key, ty);
        case None =>
          FreshAddLeaf(now, Lookup(now, i, path[0]).value, path[1..], added, key, ty);
      }
    }
  }

  lemma {:induction false} FreshAddLeaf(now: seq<PNode>, c: nat, path: seq<Key>, added: Dict<Key, nat>, key: Key, ty: Value)
    requires Valid(now) && c < |now| && FreshChain(now, c, path, added) && Resolve(now, c, path).Some?
    requires !HasKey(now[Resolve(now, c, path).value].store, key)
    ensures Valid(AddChild(now, Resolve(now, c, path).value, key, ty))
    ensures FreshChain(AddChild(now, Resolve(now, c, path).value, key, ty), c, path, added + [(key, |now|)])
    decreases |path|
  {
    var e := Resolve(now, c, path).value;
    AddChildValid(now, e, key, ty);
    GrownStore(now, e, key, |now|);
    if path != [] {
      FreshAddLeaf(now, Lookup(now, c, path[0]).value, path[1..], added, key, ty);
    }
  }

  /** Going down an existing name extends a walk that changed nothing. */
  lemma {:induction false} ShapeDescend(was: seq<PNode>, now: seq<PNode>, i: nat, path: seq<Key>, key: Key)
    requires Valid(was) && Valid(now) && i < |was| <= |now|
    requires ShapeAfter(was, now, i, path, []) && Framed(was, now, i, path)
    ensures Resolve(now, i, path + [key]).Some? ==> ShapeAfter(was, now, i, path + [key], [])
    decreases |path|
  {
    var pk := path + [key];
    if path == [] {
      assert pk[0] == key && pk[1..] == [];
      if Lookup(now, i, key).Some? {
        var c := Lookup(now, i, key).value;
        assert !OnPath(was, i, [], c);
      }
    } else {
      assert pk[0] == path[0] && pk[1..] == path[1..] + [key];
      match Lookup(was, i, path[0]) {
        case Some(c) =>
          assert now[i] == was[i];
          forall x | 0 <= x < |was| && !OnPath(was, c, path[1..], x) ensures now[x] == was[x] {
            if x != i {
              assert !OnPath(was, i, path, x);
            }
          }
          ShapeDescend(was, now, c, path[1..], key);
        case None =>
          FreshNoDescend(now, Lookup(now, i, path[0]).value, path[1..], key);
      }
    }
  }

  /** A chain created with no children has nothing below its end. */
  lemma {:induction false} FreshNoDescend(now: seq<PNode>, c: nat, path: seq<Key>, key: Key)
    requires Valid(now) && c < |now| && FreshChain(now, c, path, [])
    ensures Resolve(now, c, path + [key]).None?
    decreases |path|
  {
    var pk := path + [key];
    if path == [] {
      assert pk[0] == key && pk[1..] == [];
    } else {
      assert pk[0] == path[0] && pk[1..] == path[1..] + [key];
      FreshNoDescend(now, Lookup(now, c, path[0]).value, path[1..], key);
    }
  }

  /** A walk that added nothing keeps every name the old arena resolved. */
  lemma {:induction false} ShapeResolve(was: seq<PNode>, now: seq<PNode>, i: nat, path: seq<Key>, key: Key)
    requires Valid(was) && Valid(now) && i < |was| <= |now| && ShapeAfter(was, now, i, path, [])
    ensures Resolve(was, i, path + [key]).Some? ==> Resolve(now, i, path + [key]) == Resolve(was, i, path + [key])
    decreases |path|
  {
    var pk := path + [key];
    if path == [] {
      assert pk[0] == key && pk[1..] == [];
      assert now[i].store == was[i].store;
    } else {
      assert pk[0] == path[0] && pk[1..] == path[1..] + [key];
      if Lookup(was, i, path[0]).Some? {
        ShapeResolve(was, now, Lookup(was, i, path[0]).value, path[1..], key);
      }
    }
  }

  lemma FramedExtend(was: seq<PNode>, now: seq<PNode>, i: nat, path: seq<Key>, k: Key)
    requires Valid(was) && i < |was| <= |now| && Framed(was, now, i, path)
    ensures Framed(was, now, i, path + [k])
  {
    forall x | 0 <= x < |was| && !OnPath(was, i, path + [k], x) ensures now[x] == was[x] {
      OnPathExtend(was, i, path, k, x);
    }
  }

  lemma FramedDrop(was: seq<PNode>, now: seq<PNode>, i: nat, path: seq<Key>, k: Key)
    requires Valid(was) && i < |was| <= |now| && Framed(was, now, i, path + [k])
    requires Resolve(was, i, path + [k]).None?
    ensures Framed(was, now, i, path)
  {
    forall x | 0 <= x < |was| && !OnPath(was, i, path, x) ensures now[x] == was[x] {
      OnPathDrop(was, i, path, k, x);
    }
  }

  lemma FramedCompose(was: seq<PNode>, mid: seq<PNode>, now: seq<PNode>, i: nat, path: seq<Key>, added: Dict<Key, nat>)
    requires Valid(was) && Valid(mid) && i < |was| <= |mid| <= |now|
    requires ShapeAfter(was, mid, i, path, added) && Framed(was, mid, i, path) && Framed(mid, now, i, path)
    ensures Framed(was, now, i, path)
  {
    forall x | 0 <= x < |was| && !OnPath(was, i, path, x) ensures now[x] == was[x] {
      OnPathShape(was, mid, i, path, added, x);
    }
  }

  /** Creating a child of the end of the path changes only that placeholder. */
  lemma FramedAdd(was: seq<PNode>, now: seq<PNode>, i: nat, path: seq<Key>, added: Dict<Key, nat>, key: Key, ty: Value)
    requires Valid(was) && Valid(now) && i < |was| <= |now|
    requires ShapeAfter(was, now, i, path, added) && Framed(was, now, i, path) && Resolve(now, i, path).Some?
    ensures Framed(was, AddChild(now, Resolve(now, i, path).value, key, ty), i, path)
  {
    var e := Resolve(now, i, path).value;
    ResolveIsOnPath(now, i, path);
    forall x | 0 <= x < |was| && !OnPath(was, i, path, x) ensures AddChild(now, e, key, ty)[x] == was[x] {
      OnPathShape(was, now, i, path, added, x);
    }
  }

  /** Readiness seen from a placeholder part-way down the path. */
  lemma {:induction false} ReadyAt(nodes: seq<PNode>, i: nat, path: seq<Key>, ks: seq<Key>, p: nat)
    requires Valid(nodes) && i < |nodes| && PathReady(nodes, i, path, ks) && p <= |path|
    requires Resolve(nodes, i, path[..p]).Some?
    ensures PathReady(nodes, Resolve(nodes, i, path[..p]).value, path[p..], ks)
    decreases p
  {
    if p == 0 {
      assert path[..0] == [] && path[0..] == path;
    } else {
      assert path[..p][0] == path[0] && path[..p][1..] == path[1..][..p - 1];
      assert path[p..] == path[1..][p - 1..];
      ReadyAt(nodes, Lookup(nodes, i, path[0]).value, path[1..], ks, p - 1);
    }
  }

  /** A name still to be created makes the longer path ready and unresolved. */
  lemma {:induction false} ReadyExtend(nodes: seq<PNode>, i: nat, path: seq<Key>, ks: seq<Key>, k: Key, ks': seq<Key>)
    requires Valid(nodes) && i < |nodes| && PathReady(nodes, i, path, ks) && k in ks
    ensures PathReady(nodes, i, path + [k], ks')
    ensures Resolve(nodes, i, path + [k]).None?
    decreases |path|
  {
    var pk := path + [k];
    if path == [] {
      assert pk[0] == k && pk[1..] == [];
    } else {
      assert pk[0] == path[0] && pk[1..] == path[1..] + [k];
      if Lookup(nodes, i, path[0]).Some? {
        ReadyExtend(nodes, Lookup(nodes, i, path[0]).value, path[1..], ks, k, ks');
      }
    }
  }

  /** Creating the next missing name of the path keeps it ready. */
  lemma {:induction false} ReadyAddOnPath(nodes: seq<PNode>, i: nat, path: seq<Key>, ks: seq<Key>, p: nat)
    requires Valid(nodes) && i < |nodes| && PathReady(nodes, i, path, ks) && p < |path|
    requires Resolve(nodes, i, path[..p]).Some?
    requires Lookup(nodes, Resolve(nodes, i, path[..p]).value, path[p]).None?
    ensures Valid(AddChild(nodes, Resolve(nodes, i, path[..p]).value, path[p], VType(TDict)))
    ensures PathReady(AddChild(nodes, Resolve(nodes, i, path[..p]).value, path[p], VType(TDict)), i, path, ks)
    decreases p
  {
    var e := Resolve(nodes, i, path[..p]).value;
    AddChildValid(nodes, e, path[p], VType(TDict));
    GrownStore(nodes, e, path[p], |nodes|);
    var nodes' := AddChild(nodes, e, path[p], VType(TDict));
    var n := |nodes|;
    if p == 0 {
      assert path[..0] == [];
      assert Lookup(nodes', i, path[0]) == Some(n);
      if path[1..] != [] {
        assert Lookup(nodes', n, path[1..][0]).None?;
      }
    } else {
      var c := Lookup(nodes, i, path[0]).value;
      assert path[..p][0] == path[0] && path[..p][1..] == path[1..][..p - 1];
      assert path[1..][p - 1] == path[p];
      ReadyAddOnPath(nodes, c, path[1..], ks, p - 1);
      assert nodes'[i] == nodes[i];
    }
  }

  /** After a walk that added `added`, the path is ready for the remaining names. */
  lemma {:induction false} ReadyAfterShape(mid: seq<PNode>, now: seq<PNode>, i: nat, path: seq<Key>, ks: seq<Key>, added: Dict<Key, nat>, ks': seq<Key>)
    requires Valid(mid) && Valid(now) && i < |mid| <= |now|
    requires PathReady(mid, i, path, ks) && ShapeAfter(mid, now, i, path, added)
    requires forall k :: k in ks' ==> k in ks && k !in Keys(added)
    ensures PathReady(now, i, path, ks')
    decreases |path|
  {
    if path == [] {
      KeysConcat(mid[i].store, added);
    } else {
      match Lookup(mid, i, path[0]) {
        case Some(c) =>
          ReadyAfterShape(mid, now, c, path[1..], ks, added, ks');
        case None =>
          ReadyFresh(now, Lookup(now, i, path[0]).value, path[1..], added, ks');
      }
    }
  }

  lemma {:induction false} ReadyFresh(now: seq<PNode>, c: nat, path: seq<Key>, added: Dict<Key, nat>, ks': seq<Key>)
    requires Valid(now) && c < |now| && FreshChain(now, c, path, added)
    requires forall k :: k in ks' ==> k !in Keys(added)
    ensures PathReady(now, c, path, ks')
    decreases |path|
  {
    if path != [] {
      ReadyFresh(now, Lookup(now, c, path[0]).value, path[1..], added, ks');
    }
  }

  /** Children added earlier keep their shape while later ones are added. */
  lemma AddedKept(was: seq<PNode>, mid: seq<PNode>, now: seq<PNode>, i: nat, path: seq<Key>, added: Dict<Key, nat>, es: Dict<Key, Value>)
    requires Valid(was) && Valid(mid) && Valid(now) && i < |was| <= |mid| <= |now|
    requires ShapeAfter(was, mid, i, path, added) && Framed(mid, now, i, path) && AddedOk(mid, added, es)
    ensures AddedOk(now, added, es)
  {
    ShapeEnd(was, mid, i, path, added);
    var e := Resolve(mid, i, path).value;
    assert NodeOk(mid, e);
    forall m | 0 <= m < |added| ensures added[m].1 < |now| && Matches(now, added[m].1, es[m].1) {
      var a := added[m].1;
      assert added[m] in added;
      forall x | a <= x < |mid| ensures now[x].store == mid[x].store && now[x].ty == mid[x].ty {
        OnPathLe(mid, i, path, x);
      }
      MatchesFrame(mid, now, a, es[m].1);
    }
  }

  lemma {:induction false} ResolveSnoc(nodes: seq<PNode>, i: nat, path: seq<Key>, k: Key)
    requires Valid(nodes) && i < |nodes| && Resolve(nodes, i, path).Some?
    ensures Resolve(nodes, i, path + [k]) == Lookup(nodes, Resolve(nodes, i, path).value, k)
    decreases |path|
  {
    var pk := path + [k];
    if path == [] {
      assert pk[0] == k && pk[1..] == [];
    } else {
      assert pk[0] == path[0] && pk[1..] == path[1..] + [k];
      ResolveSnoc(nodes, Lookup(nodes, i, path[0]).value, path[1..], k);
    }
  }

  /** What readiness promises at the placeholder reached after `p` names. */
  lemma ReadyHere(nodes: seq<PNode>, i: nat, path: seq<Key>, ks: seq<Key>, p: nat, current: nat)
    requires Valid(nodes) && i < |nodes| && PathReady(nodes, i, path, ks) && p <= |path|
    requires Resolve(nodes, i, path[..p]) == Some(current)
    ensures CreateError(nodes[current]).None?
    ensures p < |path| && Lookup(nodes, current, path[p]).Some? ==> nodes[Lookup(nodes, current, path[p]).value].ty == VType(TDict)
    ensures p == |path| ==> forall k :: k in ks ==> !HasKey(nodes[current].store, k)
  {
    ReadyAt(nodes, i, path, ks, p);
    if p < |path| {
      assert path[p..][0] == path[p];
    } else {
      assert path[p..] == [];
    }
  }

  /** The invariant of the walk after `p` names of `path`, at `current`. */
  predicate Walked(was: seq<PNode>, now: seq<PNode>, root: nat, path: seq<Key>, ks: seq<Key>, p: nat, current: nat)
    requires Valid(was) && Valid(now) && root < |was| <= |now| && p <= |path|
  {
    && Resolve(now, root, path[..p]) == Some(current)
    && ShapeAfter(was, now, root, path[..p], [])
    && Framed(was, now, root, path[..p])
    && PathReady(now, root, path, ks)
  }

  /** One step of the walk down the path: an existing dict-typed name is
      followed, a missing one is created. */
  lemma WalkStep(mid: seq<PNode>, prev: seq<PNode>, now: seq<PNode>, root: nat, path: seq<Key>, ks: seq<Key>, p: nat, current: nat, next: nat)
    requires Valid(mid) && Valid(prev) && root < |mid| <= |prev| && p < |path|
    requires Walked(mid, prev, root, path, ks, p, current)
    requires Lookup(prev, current, path[p]).Some? ==> now == prev && next == Lookup(prev, current, path[p]).value
    requires Lookup(prev, current, path[p]).None? ==> now == AddChild(prev, current, path[p], VType(TDict)) && next == |prev|
    ensures Valid(now) && |prev| <= |now|
    ensures Walked(mid, now, root, path, ks, p + 1, next)
  {
    assert path[..p + 1] == path[..p] + [path[p]];
    if Lookup(prev, current, path[p]).Some? {
      WalkFollow(mid, prev, root, path[..p], path[p], current);
    } else {
      ReadyHere(prev, root, path, ks, p, current);
      WalkCreate(mid, prev, root, path[..p], path[p], current);
      ReadyAddOnPath(prev, root, path, ks, p);
    }
  }

  lemma WalkFollow(mid: seq<PNode>, prev: seq<PNode>, root: nat, q: seq<Key>, key: Key, current: nat)
    requires Valid(mid) && Valid(prev) && root < |mid| <= |prev|
    requires Resolve(prev, root, q) == Some(current) && Lookup(prev, current, key).Some?
    requires ShapeAfter(mid, prev, root, q, []) && Framed(mid, prev, root, q)
    ensures Resolve(prev, root, q + [key]) == Lookup(prev, current, key)
    ensures ShapeAfter(mid, prev, root, q + [key], [])
    ensures Framed(mid, prev, root, q + [key])
  {
    ResolveSnoc(prev, root, q, key);
    FramedExtend(mid, prev, root, q, key);
    ShapeDescend(mid, prev, root, q, key);
  }

  lemma WalkCreate(mid: seq<PNode>, prev: seq<PNode>, root: nat, q: seq<Key>, key: Key, current: nat)
    requires Valid(mid) && Valid(prev) && root < |mid| <= |prev|
    requires Resolve(prev, root, q) == Some(current) && Lookup(prev, current, key).None?
    requires ShapeAfter(mid, prev, root, q, []) && Framed(mid, prev, root, q)
    requires prev[current].kind != BaseKind
    ensures Valid(AddChild(prev, current, key, VType(TDict)))
    ensures Resolve(AddChild(prev, current, key, VType(TDict)), root, q + [key]) == Some(|prev|)
    ensures ShapeAfter(mid, AddChild(prev, current, key, VType(TDict)), root, q + [key], [])
    ensures Framed(mid, AddChild(prev, current, key, VType(TDict)), root, q + [key])
  {
    var now := AddChild(prev, current, key, VType(TDict));
    CreateAtEnd(mid, prev, root, q, key, current);
    CreateExtends(mid, prev, now, root, q, key, current);
    CreateResolves(mid, prev, now, root, q, key, current);
  }

  /** The missing name, created, is a child added at the end of the path. */
  lemma CreateAtEnd(mid: seq<PNode>, prev: seq<PNode>, root: nat, q: seq<Key>, key: Key, current: nat)
    requires Valid(mid) && Valid(prev) && root < |mid| <= |prev|
    requires Resolve(prev, root, q) == Some(current) && Lookup(prev, current, key).None?
    requires ShapeAfter(mid, prev, root, q, []) && Framed(mid, prev, root, q)
    ensures Valid(AddChild(prev, current, key, VType(TDict)))
    ensures ShapeAfter(mid, AddChild(prev, current, key, VType(TDict)), root, q, [(key, |prev|)])
    ensures Framed(mid, AddChild(prev, current, key, VType(TDict)), root, q + [key])
  {
    var now := AddChild(prev, current, key, VType(TDict));
    ShapeAddLeaf(mid, prev, root, q, [], key, VType(TDict));
    assert [] + [(key, |prev|)] == [(key, |prev|)];
    FramedAdd(mid, prev, root, q, [], key, VType(TDict));
    FramedExtend(mid, now, root, q, key);
  }

  /** ... which makes the path one name longer. */
  lemma CreateExtends(mid: seq<PNode>, prev: seq<PNode>, now: seq<PNode>, root: nat, q: seq<Key>, key: Key, current: nat)
    requires Valid(mid) && Valid(prev) && root < |mid| <= |prev|
    requires Resolve(prev, root, q) == Some(current) && Lookup(prev, current, key).None?
    requires ShapeAfter(mid, prev, root, q, [])
    requires prev[current].kind != BaseKind
    requires now == AddChild(prev, current, key, VType(TDict)) && Valid(now)
    requires ShapeAfter(mid, now, root, q, [(key, |prev|)])
    ensures ShapeAfter(mid, now, root, q + [key], [])
  {
    ShapeResolve(mid, prev, root, q, key);
    ResolveSnoc(prev, root, q, key);
    ShapeSplit(mid, now, root, q, key, |prev|, []);
  }

  lemma CreateResolves(mid: seq<PNode>, prev: seq<PNode>, now: seq<PNode>, root: nat, q: seq<Key>, key: Key, current: nat)
    requires Valid(mid) && Valid(prev) && root < |mid| <= |prev|
    requires Resolve(prev, root, q) == Some(current) && Lookup(prev, current, key).None?
    requires now == AddChild(prev, current, key, VType(TDict)) && Valid(now)
    requires ShapeAfter(mid, now, root, q, [(key, |prev|)])
    ensures Resolve(now, root, q + [key]) == Some(|prev|)
  {
    GrownStore(prev, current, key, |prev|);
    ShapeEnd(mid, now, root, q, [(key, |prev|)]);
    var e := Resolve(now, root, q).value;
    assert (key, |prev|) in [(key, |prev|)];
    AddChildAt(prev, current, key, VType(TDict));
    assert NodeOk(now, e);
    assert e == current;
    ResolveSnoc(now, root, q, key);
  }

  /** A leaf entry: its variable is created at the end of the walked path. */
  lemma LeafEntry(mid: seq<PNode>, prev: seq<PNode>, root: nat, path: seq<Key>, current: nat, k: Key, v: Value)
    requires Valid(mid) && Valid(prev) && root < |mid| <= |prev|
    requires ShapeAfter(mid, prev, root, path, []) && Framed(mid, prev, root, path)
    requires Resolve(prev, root, path) == Some(current) && !HasKey(prev[current].store, k)
    requires !v.VDict? && !Falsy(v)
    ensures Valid(AddChild(prev, current, k, v))
    ensures ShapeAfter(mid, AddChild(prev, current, k, v), root, path, [(k, |prev|)])
    ensures Framed(mid, AddChild(prev, current, k, v), root, path)
    ensures Matches(AddChild(prev, current, k, v), |prev|, v)
  {
    ShapeAddLeaf(mid, prev, root, path, [], k, v);
    assert [] + [(k, |prev|)] == [(k, |prev|)];
    FramedAdd(mid, prev, root, path, [], k, v);
  }

  /** A dict entry: the recursive call created `k` at the end of the path. */
  lemma DictEntry(mid: seq<PNode>, now: seq<PNode>, root: nat, path: seq<Key>, k: Key, v: Value, sub: Dict<Key, nat>)
    requires Valid(mid) && Valid(now) && root < |mid| <= |now| && v.VDict?
    requires Resolve(mid, root, path + [k]).None?
    requires ShapeAfter(mid, now, root, path + [k], sub) && Framed(mid, now, root, path + [k])
    requires AddedOk(now, sub, v.entries)
    ensures Resolve(now, root, path + [k]).Some?
    ensures ShapeAfter(mid, now, root, path, [(k, Resolve(now, root, path + [k]).value)])
    ensures Framed(mid, now, root, path)
    ensures Matches(now, Resolve(now, root, path + [k]).value, v)
  {
    ShapeJoin(mid, now, root, path, k, sub);
    FramedDrop(mid, now, root, path, k);
  }

  /** A fresh placeholder filled by `_set_schema` is shaped like the schema. */
  lemma BuiltMatches(was: seq<PNode>, built: seq<PNode>, root: nat, schema: Value, added: Dict<Key, nat>)
    requires Valid(was) && Valid(built) && root < |was| <= |built| && schema.VDict?
    requires was[root].store == []
    requires ShapeAfter(was, built, root, [], added) && AddedOk(built, added, schema.entries)
    ensures Matches(built, root, schema)
  {
    assert [] + added == added;
  }

  /** The invariant of `_set_schema`'s loop after `idx` entries of `es`. */
  predicate Built(was: seq<PNode>, now: seq<PNode>, root: nat, path: seq<Key>, es: Dict<Key, Value>, idx: nat, added: Dict<Key, nat>)
    requires Valid(was) && Valid(now) && root < |was| <= |now| && idx <= |es|
  {
    && (idx == 0 ==> now == was && added == [])
    && (idx > 0 ==> ShapeAfter(was, now, root, path, added))
    && Framed(was, now, root, path) && AddedOk(now, added, es[..idx]) && PathReady(now, root, path, Keys(es[idx..]))
  }

  /** `now` is `was` with one new child `c` at the end of `path`, shaped like `v`. */
  predicate Appended(was: seq<PNode>, now: seq<PNode>, root: nat, path: seq<Key>, k: Key, c: nat, v: Value)
  {
    && Valid(was) && Valid(now) && root < |was| <= |now| && c < |now|
    && Matches(now, c, v)
    && ShapeAfter(was, now, root, path, [(k, c)])
    && Framed(was, now, root, path)
  }

  /** One schema entry done: the invariant of `_set_schema`'s loop moves on. */
  lemma EntryDone(was: seq<PNode>, mid: seq<PNode>, now: seq<PNode>, root: nat, path: seq<Key>, es: Dict<Key, Value>, idx: nat, added: Dict<Key, nat>, c: nat)
    requires Valid(was) && Valid(mid) && Valid(now) && root < |was| <= |mid| <= |now| && idx < |es| && KeysUnique(es)
    requires Built(was, mid, root, path, es, idx, added)
    requires Appended(mid, now, root, path, es[idx].0, c, es[idx].1)
    ensures Built(was, now, root, path, es, idx + 1, added + [(es[idx].0, c)])
  {
    var k := es[idx].0;
    EntryShape(was, mid, now, root, path, idx, added, k, c);
    if idx > 0 {
      AddedKept(was, mid, now, root, path, added, es[..idx]);
    }
    EntryAdded(now, es, idx, added, c);
    KeysUniqueNotBefore(es, idx);
    ReadyAfterShape(mid, now, root, path, Keys(es[idx..]), [(k, c)], Keys(es[idx + 1..]));
  }

  lemma EntryShape(was: seq<PNode>, mid: seq<PNode>, now: seq<PNode>, root: nat, path: seq<Key>, idx: nat, added: Dict<Key, nat>, k: Key, c: nat)
    requires Valid(was) && Valid(mid) && Valid(now) && root < |was| <= |mid| <= |now|
    requires idx == 0 ==> mid == was && added == []
    requires idx > 0 ==> ShapeAfter(was, mid, root, path, added)
    requires Framed(was, mid, root, path)
    requires ShapeAfter(mid, now, root, path, [(k, c)]) && Framed(mid, now, root, path)
    ensures ShapeAfter(was, now, root, path, added + [(k, c)])
    ensures Framed(was, now, root, path)
  {
    if idx == 0 {
      assert added + [(k, c)] == [(k, c)];
    } else {
      ShapeCompose(was, mid, now, root, path, added, [(k, c)]);
      FramedCompose(was, mid, now, root, path, added);
    }
  }

  lemma EntryAdded(now: seq<PNode>, es: Dict<Key, Value>, idx: nat, added: Dict<Key, nat>, c: nat)
    requires idx < |es| && AddedOk(now, added, es[..idx]) && c < |now| && Matches(now, c, es[idx].1)
    ensures AddedOk(now, added + [(es[idx].0, c)], es[..idx + 1])
  {
    var more := added + [(es[idx].0, c)];
    var done := es[..idx + 1];
    KeysConcat(added, [(es[idx].0, c)]);
    assert done == es[..idx] + [es[idx]];
    KeysConcat(es[..idx], [es[idx]]);
    forall m | 0 <= m < |more| ensures more[m].1 < |now| && Matches(now, more[m].1, done[m].1) {
      if m < |added| {
        assert more[m] == added[m] && done[m] == es[..idx][m];
      } else {
        assert more[m] == (es[idx].0, c) && done[m] == es[idx];
      }
    }
  }

  /** `ReadyHere` and `WalkStep` for a walk that may not be ready. */
  lemma ReadyHereIf(pre: bool, nodes: seq<PNode>, i: nat, path: seq<Key>, ks: seq<Key>, p: nat, current: nat)
    requires Valid(nodes) && i < |nodes| && p <= |path|
    requires pre ==> PathReady(nodes, i, path, ks) && Resolve(nodes, i, path[..p]) == Some(current)
    ensures pre ==> current < |nodes| && CreateError(nodes[current]).None?
    ensures pre && p < |path| && Lookup(nodes, current, path[p]).Some? ==> nodes[Lookup(nodes, current, path[p]).value].ty == VType(TDict)
    ensures pre && p == |path| ==> forall k :: k in ks ==> !HasKey(nodes[current].store, k)
  {
    if pre {
      ReadyHere(nodes, i, path, ks, p, current);
    }
  }

  lemma WalkStepIf(pre: bool, mid: seq<PNode>, prev: seq<PNode>, now: seq<PNode>, root: nat, path: seq<Key>, ks: seq<Key>, p: nat, current: nat, next: nat)
    requires Valid(mid) && Valid(prev) && root < |mid| <= |prev| && p < |path|
    requires pre ==>
      && Walked(mid, prev, root, path, ks, p, current)
      && (Lookup(prev, current, path[p]).Some? ==> now == prev && next == Lookup(prev, current, path[p]).value)
      && (Lookup(prev, current, path[p]).None? ==> now == AddChild(prev, current, path[p], VType(TDict)) && next == |prev|)
    ensures pre ==> Valid(now) && |prev| <= |now| && Walked(mid, now, root, path, ks, p + 1, next)
  {
    if pre {
      WalkStep(mid, prev, now, root, path, ks, p, current, next);
    }
  }

  lemma LeafReadyIf(pre: bool, was: seq<PNode>, nodes: seq<PNode>, root: nat, path: seq<Key>, ks: seq<Key>, current: nat, k: Key)
    requires Valid(was) && Valid(nodes) && root < |was| <= |nodes|
    requires pre ==> Walked(was, nodes, root, path, ks, |path|, current) && k in ks
    ensures pre ==> current < |nodes| && CreateError(nodes[current]).None? && Lookup(nodes, current, k).None?
  {
    if pre {
      assert path[..|path|] == path;
      ReadyHere(nodes, root, path, ks, |path|, current);
    }
  }

  lemma LeafEntryIf(pre: bool, mid: seq<PNode>, prev: seq<PNode>, now: seq<PNode>, root: nat, path: seq<Key>, ks: seq<Key>, current: nat, k: Key, v: Value, c: nat)
    requires Valid(mid) && Valid(prev) && root < |mid| <= |prev|
    requires pre ==>
      && Walked(mid, prev, root, path, ks, |path|, current) && Lookup(prev, current, k).None?
      && !v.VDict? && !Falsy(v) && now == AddChild(prev, current, k, v) && c == |prev|
    ensures pre ==> Valid(now) && |mid| <= |now| && Appended(mid, now, root, path, k, c, v)
  {
    if pre {
      assert path[..|path|] == path;
      LeafEntry(mid, prev, root, path, current, k, v);
    }
  }

}
