/** Flattening of nested input dictionaries into dotted keys, and the
    rendering of a schema's types by name. */
module InputUtils {
  import opened Wrappers
  import opened Dicts
  import opened PyValues

  /** A key Python treats as false (`''` or `0`): flattening under it keeps child keys as they are. */
  predicate KeyFalsy(k: Key)
  {
    k == KStr("") || k == KInt(0)
  }

  /** The flattened key of child `k` under `parent`: `parent + '.' + k`, or `k`
      itself under a false parent; joining anything but two strings is a TypeError. */
  function JoinKey(parent: Key, k: Key): Result<Key, Error>
  {
    if KeyFalsy(parent) then Ok(k)
    else if parent.KStr? && k.KStr? then Ok(KStr(parent.s + "." + k.s))
    else Err(WrongOperandType)
  }

  /** `flatten(input)`. */
  function Flatten(input: Value): Result<Dict<Key, Value>, Error>
  {
    FlattenUnder(input, KStr(""))
  }

  /** `flatten(input, parent_key)`: the items of every level are gathered and
      made into a dict, and an enclosing level takes that dict's items. */
  function FlattenUnder(input: Value, parent: Key): Result<Dict<Key, Value>, Error>
    decreases input, 1
  {
    if !input.VDict? then Err(MissingAttribute("items"))
    else
      var items :- FlattenItems(input, parent, 0);
      Ok(FromPairs(items))
  }

  function FlattenItems(input: Value, parent: Key, i: nat): Result<seq<(Key, Value)>, Error>
    requires input.VDict?
    decreases input, 0, |input.entries| - i
  {
    if i >= |input.entries| then Ok([])
    else
      var k := input.entries[i].0;
      var v := input.entries[i].1;
      var key :- JoinKey(parent, k);
      var here :- if v.VDict? then FlattenUnder(v, key) else Ok([(key, v)]);
      var rest :- FlattenItems(input, parent, i + 1);
      Ok(here + rest)
  }

  /** Reference definition: every non-dict value of the nested input with its
      joined key, in document order, without merging any level. */
  function LeafPaths(input: Value, parent: Key): Result<seq<(Key, Value)>, Error>
    decreases input, 1
  {
    if !input.VDict? then Err(MissingAttribute("items"))
    else LeafItems(input, parent, 0)
  }

  function LeafItems(input: Value, parent: Key, i: nat): Result<seq<(Key, Value)>, Error>
    requires input.VDict?
    decreases input, 0, |input.entries| - i
  {
    if i >= |input.entries| then Ok([])
    else
      var k := input.entries[i].0;
      var v := input.entries[i].1;
      var key :- JoinKey(parent, k);
      var here :- if v.VDict? then LeafPaths(v, key) else Ok([(key, v)]);
      var rest :- LeafItems(input, parent, i + 1);
      Ok(here + rest)
  }

  /** The dict made from pairs, keeping an error as it is. */
  function DictOf(r: Result<seq<(Key, Value)>, Error>): Result<Dict<Key, Value>, Error>
  {
    if r.Ok? then Ok(FromPairs(r.value)) else Err(r.error)
  }

  /** Flattening is `dict` of all leaf paths: the same errors, and the nested
      `dict(...)` calls change nothing. */
  lemma {:induction false} FlattenIsDictOfLeaves(input: Value, parent: Key)
    ensures FlattenUnder(input, parent) == DictOf(LeafPaths(input, parent))
    decreases input, 1
  {
    if input.VDict? {
      FlattenItemsLeaves(input, parent, 0, []);
      var f := FlattenItems(input, parent, 0);
      if f.Ok? {
        assert [] + f.value == f.value;
        assert [] + LeafItems(input, parent, 0).value == LeafItems(input, parent, 0).value;
      }
    }
  }

  /** One nested dict's items, already merged by `dict(...)`, followed by the
      later items: the merge disappears in the enclosing `dict(...)`. */
  lemma {:induction false} DictEntrySpliced(x: seq<(Key, Value)>, l: seq<(Key, Value)>, restF: seq<(Key, Value)>, restL: seq<(Key, Value)>)
    requires FromPairs((x + l) + restF) == FromPairs((x + l) + restL)
    ensures FromPairs(x + (FromPairs(l) + restF)) == FromPairs(x + (l + restL))
  {
    calc {
      FromPairs(x + (FromPairs(l) + restF));
      { assert x + (FromPairs(l) + restF) == x + FromPairs(l) + restF; }
      FromPairs(x + FromPairs(l) + restF);
      { FromPairsSplice(x, l, restF); }
      FromPairs(x + l + restF);
      FromPairs((x + l) + restL);
      { assert (x + l) + restL == x + (l + restL); }
      FromPairs(x + (l + restL));
    }
  }

  lemma {:induction false} FlattenItemsLeaves(input: Value, parent: Key, i: nat, x: seq<(Key, Value)>)
    requires input.VDict?
    ensures FlattenItems(input, parent, i).Ok? == LeafItems(input, parent, i).Ok?
    ensures FlattenItems(input, parent, i).Err? ==>
      FlattenItems(input, parent, i).error == LeafItems(input, parent, i).error
    ensures FlattenItems(input, parent, i).Ok? ==>
      FromPairs(x + FlattenItems(input, parent, i).value) == FromPairs(x + LeafItems(input, parent, i).value)
    decreases input, 0, |input.entries| - i
  {
    if i < |input.entries| {
      var k := input.entries[i].0;
      var v := input.entries[i].1;
      var key := JoinKey(parent, k);
      if key.Ok? {
        if v.VDict? {
          FlattenIsDictOfLeaves(v, key.value);
          var leaves := LeafPaths(v, key.value);
          if leaves.Ok? {
            var l := leaves.value;
            FlattenItemsLeaves(input, parent, i + 1, x + l);
            var restF := FlattenItems(input, parent, i + 1);
            var restL := LeafItems(input, parent, i + 1);
            if restF.Ok? {
              assert FlattenItems(input, parent, i) == Ok(FromPairs(l) + restF.value);
              assert LeafItems(input, parent, i) == Ok(l + restL.value);
              DictEntrySpliced(x, l, restF.value, restL.value);
            } else {
              assert FlattenItems(input, parent, i) == Err(restF.error);
              assert LeafItems(input, parent, i) == Err(restL.error);
            }
          } else {
            assert FlattenItems(input, parent, i) == Err(leaves.error);
            assert LeafItems(input, parent, i) == Err(leaves.error);
          }
        } else {
          var here := [(key.value, v)];
          FlattenItemsLeaves(input, parent, i + 1, x + here);
          var restF := FlattenItems(input, parent, i + 1);
          var restL := LeafItems(input, parent, i + 1);
          if restF.Ok? {
            assert FlattenItems(input, parent, i) == Ok(here + restF.value);
            assert LeafItems(input, parent, i) == Ok(here + restL.value);
            assert x + (here + restF.value) == (x + here) + restF.value;
            assert x + (here + restL.value) == (x + here) + restL.value;
          } else {
            assert FlattenItems(input, parent, i) == Err(restF.error);
            assert LeafItems(input, parent, i) == Err(restL.error);
          }
        }
      }
    }
  }

  lemma {:induction false} LastValueIn(pairs: seq<(Key, Value)>, k: Key)
    ensures LastValue(pairs, k).Some? ==> (k, LastValue(pairs, k).value) in pairs
  {
    if pairs != [] {
      LastValueIn(pairs[1..], k);
    }
  }

  /** When a flattened key arises more than once (for example `{"a.b": 1,
      "a": {"b": 2}}`), the later leaf's value is the one kept; keys keep the
      order of their first appearance. */
  lemma FlattenLaterWins(input: Value, k: Key)
    requires LeafPaths(input, KStr("")).Ok?
    ensures Flatten(input).Ok?
    ensures Get(Flatten(input).value, k) == LastValue(LeafPaths(input, KStr("")).value, k)
    ensures Keys(Flatten(input).value) == FirstKeys({}, Keys(LeafPaths(input, KStr("")).value))
  {
    FlattenIsDictOfLeaves(input, KStr(""));
    FromPairsGet(LeafPaths(input, KStr("")).value, k);
    FromPairsKeys(LeafPaths(input, KStr("")).value);
  }

  /** No leaf path ends in a dict. */
  lemma {:induction false} LeafPathsAreLeaves(input: Value, parent: Key)
    ensures LeafPaths(input, parent).Ok? ==>
      forall p :: p in LeafPaths(input, parent).value ==> !p.1.VDict?
    decreases input, 1
  {
    if input.VDict? {
      LeafItemsAreLeaves(input, parent, 0);
    }
  }

  lemma {:induction false} LeafItemsAreLeaves(input: Value, parent: Key, i: nat)
    requires input.VDict?
    ensures LeafItems(input, parent, i).Ok? ==>
      forall p :: p in LeafItems(input, parent, i).value ==> !p.1.VDict?
    decreases input, 0, |input.entries| - i
  {
    if i < |input.entries| {
      var key := JoinKey(parent, input.entries[i].0);
      if key.Ok? {
        if input.entries[i].1.VDict? {
          LeafPathsAreLeaves(input.entries[i].1, key.value);
        }
        LeafItemsAreLeaves(input, parent, i + 1);
      }
    }
  }

  /** A flattened dict holds no dict: every value is a leaf of the input. */
  lemma FlattenHasNoDicts(input: Value)
    requires Flatten(input).Ok?
    ensures KeysUnique(Flatten(input).value)
    ensures forall p :: p in Flatten(input).value ==> !p.1.VDict?
  {
    FlattenIsDictOfLeaves(input, KStr(""));
    var leaves := LeafPaths(input, KStr("")).value;
    var r := Flatten(input).value;
    FromPairsIntoSpec([], leaves);
    LeafPathsAreLeaves(input, KStr(""));
    forall p | p in r ensures !p.1.VDict? {
      var i :| 0 <= i < |r| && r[i] == p;
      GetUnique(r, i);
      FromPairsGet(leaves, p.0);
      LastValueIn(leaves, p.0);
    }
  }

  lemma {:induction false} FlattenItemsOfFlat(input: Value, i: nat)
    requires input.VDict?
    requires forall p :: p in input.entries ==> !p.1.VDict?
    requires i <= |input.entries|
    ensures FlattenItems(input, KStr(""), i) == Ok(input.entries[i..])
    decreases |input.entries| - i
  {
    if i < |input.entries| {
      var k, v := input.entries[i].0, input.entries[i].1;
      assert input.entries[i] in input.entries;
      assert !v.VDict?;
      assert JoinKey(KStr(""), k) == Ok(k);
      FlattenItemsOfFlat(input, i + 1);
      assert input.entries[i..] == [(k, v)] + input.entries[i + 1..];
    } else {
      assert input.entries[i..] == [];
    }
  }

  /** Flattening a flattened dict changes nothing. */
  lemma FlattenIdempotent(input: Value)
    requires Flatten(input).Ok?
    ensures Flatten(VDict(Flatten(input).value)) == Flatten(input)
  {
    var r := Flatten(input).value;
    FlattenHasNoDicts(input);
    FlattenItemsOfFlat(VDict(r), 0);
    assert r[0..] == r;
    FromPairsOfDict(r);
  }

  /** Every leaf of a schema is a class object, as `replace_type_with_str` needs. */
  predicate LeavesAreTypes(schema: Value)
  {
    match schema
    case VDict(es) => forall i :: 0 <= i < |es| ==> (es[i].1.VDict? && LeavesAreTypes(es[i].1)) || es[i].1.VType?
    case _ => false
  }

  /** `replace_type_with_str(schema)`: each class at a leaf becomes its name. */
  function ReplaceTypeWithStr(schema: Value): Result<Value, Error>
    decreases schema, 1
  {
    if !schema.VDict? then Err(MissingAttribute("items"))
    else
      var entries :- ReplaceTypeItems(schema, 0, []);
      Ok(VDict(entries))
  }

  function ReplaceTypeItems(schema: Value, i: nat, acc: Dict<Key, Value>): Result<Dict<Key, Value>, Error>
    requires schema.VDict?
    decreases schema, 0, |schema.entries| - i
  {
    if i >= |schema.entries| then Ok(acc)
    else
      var k := schema.entries[i].0;
      var v := schema.entries[i].1;
      var named :- if v.VDict? then ReplaceTypeWithStr(v)
                   else if v.VType? then Ok(VStr(TypeName(v.t)))
                   else Err(MissingAttribute("__name__"));
      ReplaceTypeItems(schema, i + 1, Put(acc, k, named))
  }

  /** The result has the schema's keys in the schema's order; each class
      leaf is replaced by its name and each nested dict is rendered the same
      way; it fails exactly when some leaf is not a class. */
  lemma {:induction false} ReplaceTypeWithStrSpec(schema: Value)
    requires WellFormed(schema)
    ensures ReplaceTypeWithStr(schema).Ok? <==> LeavesAreTypes(schema)
    ensures ReplaceTypeWithStr(schema).Ok? ==>
      var r := ReplaceTypeWithStr(schema).value;
      r.VDict? && |r.entries| == |schema.entries| &&
      forall i :: 0 <= i < |r.entries| ==>
        r.entries[i].0 == schema.entries[i].0 && Rendered(schema.entries[i].1, r.entries[i].1)
    decreases schema, 1
  {
    if schema.VDict? {
      ReplaceTypeItemsOk(schema, 0, []);
      ReplaceTypeItemsShape(schema, 0, []);
    }
  }

  /** The items pass fails exactly when a remaining leaf is not a class. */
  lemma {:induction false} ReplaceTypeItemsOk(schema: Value, i: nat, acc: Dict<Key, Value>)
    requires schema.VDict? && WellFormed(schema) && i <= |schema.entries|
    ensures ReplaceTypeItems(schema, i, acc).Ok? <==>
      forall j :: i <= j < |schema.entries| ==>
        (schema.entries[j].1.VDict? && LeavesAreTypes(schema.entries[j].1)) || schema.entries[j].1.VType?
    decreases schema, 0, |schema.entries| - i
  {
    var es := schema.entries;
    if i < |es| {
      var v := es[i].1;
      if v.VDict? {
        ReplaceTypeWithStrSpec(v);
      }
      var named := if v.VDict? then ReplaceTypeWithStr(v)
                   else if v.VType? then Ok(VStr(TypeName(v.t)))
                   else Err(MissingAttribute("__name__"));
      if named.Ok? {
        ReplaceTypeItemsOk(schema, i + 1, Put(acc, es[i].0, named.value));
      }
    }
  }

  /** Each pass appends the next key with its rendered value. */
  lemma {:induction false} ReplaceTypeItemsShape(schema: Value, i: nat, acc: Dict<Key, Value>)
    requires schema.VDict? && WellFormed(schema) && i <= |schema.entries|
    requires |acc| == i && forall j :: 0 <= j < i ==> acc[j].0 == schema.entries[j].0
    ensures ReplaceTypeItems(schema, i, acc).Ok? ==>
      var r := ReplaceTypeItems(schema, i, acc).value;
      |r| == |schema.entries| &&
      (forall j :: 0 <= j < i ==> r[j] == acc[j]) &&
      forall j :: i <= j < |r| ==> r[j].0 == schema.entries[j].0 && Rendered(schema.entries[j].1, r[j].1)
    decreases schema, 0, |schema.entries| - i
  {
    var es := schema.entries;
    if i < |es| {
      var k, v := es[i].0, es[i].1;
      var named := if v.VDict? then ReplaceTypeWithStr(v)
                   else if v.VType? then Ok(VStr(TypeName(v.t)))
                   else Err(MissingAttribute("__name__"));
      if named.Ok? {
        assert !HasKey(acc, k) by {
          forall j | 0 <= j < |acc| ensures Keys(acc)[j] != k {
            assert acc[j].0 == es[j].0;
          }
        }
        PutKeys(acc, k, named.value);
        var acc' := Put(acc, k, named.value);
        assert acc' == acc + [(k, named.value)];
        ReplaceTypeItemsShape(schema, i + 1, acc');
      }
    }
  }

  /** `out` is how `replace_type_with_str` renders the schema value `v`. */
  predicate Rendered(v: Value, out: Value)
  {
    (v.VType? ==> out == VStr(TypeName(v.t))) &&
    (v.VDict? ==> ReplaceTypeWithStr(v) == Ok(out))
  }
}
