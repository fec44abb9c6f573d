/** The two rewritings of a Task's `parameters` the pipeline templates use:
    every parameter read from the execution input (the context object), and
    a tree of overrides, where a key ending in `$` replaces the parameter it
    names by a JSONPath and any other key descends into the nested value.
    Parameters are values here; the sharing that the shallow `copy()` of the
    source sets up between the result and the step is stated by `StepAfter`. */
module TemplateUtils {
  import opened Wrappers
  import opened Dicts
  import opened PyValues

  // ---------------------------------------------------------------------
  // Parameters read from the execution input

  /** `'{key}.$'.format(key=k)`. */
  function ContextKey(k: Key): Key
  {
    KStr(KeyText(k) + ".$")
  }

  /** `"$$.Execution.Input['{state_id}'].{key}"`. */
  function ContextPath(stateId: string, k: Key): Value
  {
    VStr("$$.Execution.Input['" + stateId + "']." + KeyText(k))
  }

  /** The dict the loop has built once it has seen the keys `ks`. */
  function ContextObject(stateId: string, ks: seq<Key>): Dict<Key, Value>
  {
    if ks == [] then []
    else
      var last := ks[|ks| - 1];
      Put(ContextObject(stateId, ks[..|ks| - 1]), ContextKey(last), ContextPath(stateId, last))
  }

  /** `replace_parameters_with_context_object(step)`, given the step's id and
      its `parameters` (None when it has none). Only the top-level keys are
      read; the step is left as it is. */
  method ReplaceParametersWithContextObject(stateId: string, parameters: Value) returns (r: Result<Dict<Key, Value>, Error>)
    ensures r.Ok? <==> parameters.VDict?
    ensures !parameters.VDict? ==> r == Err(MissingAttribute("keys"))
    ensures r.Ok? ==> r.value == ContextObject(stateId, Keys(parameters.entries))
  {
    if !parameters.VDict? {
      return Err(MissingAttribute("keys"));
    }
    var ks := Keys(parameters.entries);
    var updated: Dict<Key, Value> := [];
    for i := 0 to |ks|
      invariant updated == ContextObject(stateId, ks[..i])
    {
      assert ks[..i + 1][..i] == ks[..i];
      updated := Put(updated, ContextKey(ks[i]), ContextPath(stateId, ks[i]));
    }
    assert ks[..|ks|] == ks;
    return Ok(updated);
  }

  lemma {:induction false} ContextKeyText(a: Key, b: Key)
    ensures ContextKey(a) == ContextKey(b) <==> KeyText(a) == KeyText(b)
  {
    if ContextKey(a) == ContextKey(b) {
      var sa := KeyText(a) + ".$";
      assert KeyText(a) == sa[..|sa| - 2];
      assert KeyText(b) == (KeyText(b) + ".$")[..|sa| - 2];
    }
  }

  /** Every parameter key `k` becomes `k.$`, mapped to the path of `k` in the
      execution input under the step's id; nothing else is in the result, and
      no key is in it twice. */
  lemma {:induction false} ContextObjectSpec(stateId: string, ks: seq<Key>)
    ensures forall k :: k in ks ==> Get(ContextObject(stateId, ks), ContextKey(k)) == Some(ContextPath(stateId, k))
    ensures forall p :: p in ContextObject(stateId, ks) ==>
      exists k :: k in ks && p == (ContextKey(k), ContextPath(stateId, k))
    ensures KeysUnique(ContextObject(stateId, ks))
  {
    if ks != [] {
      var init := ks[..|ks| - 1];
      var last := ks[|ks| - 1];
      var c := ContextObject(stateId, init);
      ContextObjectSpec(stateId, init);
      PutUnique(c, ContextKey(last), ContextPath(stateId, last));
      forall k | k in ks ensures Get(ContextObject(stateId, ks), ContextKey(k)) == Some(ContextPath(stateId, k)) {
        PutGet(c, ContextKey(last), ContextPath(stateId, last), ContextKey(k));
        ContextKeyText(k, last);
        if ContextKey(k) != ContextKey(last) {
          assert k in init;
        }
      }
      PutMembers(c, ContextKey(last), ContextPath(stateId, last));
      forall p | p in ContextObject(stateId, ks) ensures exists k :: k in ks && p == (ContextKey(k), ContextPath(stateId, k)) {
        if p in c {
          var k :| k in init && p == (ContextKey(k), ContextPath(stateId, k));
          assert k in ks;
        } else {
          assert last in ks;
        }
      }
    }
  }

  /** When no two keys share their text, the result has one entry per key,
      in the parameters' order. */
  lemma {:induction false} ContextObjectOnePerKey(stateId: string, ks: seq<Key>)
    requires forall i, j :: 0 <= i < j < |ks| ==> KeyText(ks[i]) != KeyText(ks[j])
    ensures |ContextObject(stateId, ks)| == |ks|
    ensures forall i :: 0 <= i < |ks| ==> ContextObject(stateId, ks)[i] == (ContextKey(ks[i]), ContextPath(stateId, ks[i]))
  {
    if ks != [] {
      var init := ks[..|ks| - 1];
      var last := ks[|ks| - 1];
      var c := ContextObject(stateId, init);
      ContextObjectOnePerKey(stateId, init);
      if HasKey(c, ContextKey(last)) {
        var i :| 0 <= i < |c| && Keys(c)[i] == ContextKey(last);
        ContextKeyText(init[i], last);
        assert false;
      }
      PutKeys(c, ContextKey(last), ContextPath(stateId, last));
    }
  }

  // ---------------------------------------------------------------------
  // Parameters overridden by a tree of JSONPaths

  /** `key.endswith('$')`. */
  predicate EndsWithDollar(s: string)
  {
    |s| > 0 && s[|s| - 1] == '$'
  }

  /** `key[:-2]`: the parameter an override key `k.$` names. */
  function Original(s: string): (o: string)
    ensures |o| < |s| || s == ""
  {
    if |s| >= 2 then s[..|s| - 2] else ""
  }

  /** `search_and_replace`: delete the original parameter, then add the
      override key with the override's value. */
  function SearchAndReplace(src: Value, key: string, v: Value): Result<Value, Error>
  {
    if !src.VDict? then Err(WrongOperandType)
    else if !HasKey(src.entries, KStr(Original(key))) then Err(MissingKey(KStr(Original(key))))
    else Ok(VDict(Put(Remove(src.entries, KStr(Original(key))), KStr(key), v)))
  }

  /** One round of the loop of `replace_values`, for the override key `k`
      with the override value `v`. A placeholder subscripted with a key gives
      a placeholder child, which stands here as the placeholder itself; the
      rewriting of that child changes nothing the caller sees. */
  function ReplaceEntry(src: Value, k: Key, v: Value): Result<Value, Error>
    decreases v, 2
  {
    match k
    case KInt(_) => Err(MissingAttribute("endswith"))
    case KStr(s) =>
      if EndsWithDollar(s) then SearchAndReplace(src, s, v)
      else if src.VPlaceholder? then
        var child :- Replaced(src, v);
        Ok(src)
      else if !src.VDict? then Err(WrongOperandType)
      else
        match Get(src.entries, k)
        case None => Err(MissingKey(k))
        case Some(sub) =>
          var sub' :- Replaced(sub, v);
          Ok(VDict(Put(src.entries, k, sub')))
  }

  /** `replace_values(src, dest)`: what `src` has become, or the exception
      that stops the rewriting. A `dest` that is not a dict changes nothing. */
  function Replaced(src: Value, dest: Value): Result<Value, Error>
    decreases dest, 1
  {
    if dest.VDict? then ReplacedFrom(src, dest, 0) else Ok(src)
  }

  /** The loop of `replace_values` from the `i`-th override key on. */
  function ReplacedFrom(src: Value, dest: Value, i: nat): Result<Value, Error>
    requires dest.VDict?
    decreases dest, 0, |dest.entries| - i
  {
    if i >= |dest.entries| then Ok(src)
    else
      var src' :- ReplaceEntry(src, dest.entries[i].0, dest.entries[i].1);
      ReplacedFrom(src', dest, i + 1)
  }

  /** `replace_values`, as the source runs it: a loop over the override keys
      that calls itself on each nested override. */
  method ReplaceValues(src: Value, dest: Value) returns (r: Result<Value, Error>)
    ensures r == Replaced(src, dest)
    decreases dest
  {
    if !dest.VDict? {
      return Ok(src);
    }
    var cur := src;
    var i := 0;
    while i < |dest.entries|
      invariant i <= |dest.entries|
      invariant Replaced(src, dest) == ReplacedFrom(cur, dest, i)
    {
      var (k, v) := dest.entries[i];
      if k.KInt? {
        return Err(MissingAttribute("endswith"));
      }
      if EndsWithDollar(k.s) {
        var next := SearchAndReplace(cur, k.s, v);
        if next.Err? {
          return Err(next.error);
        }
        cur := next.value;
      } else if cur.VPlaceholder? {
        var child := ReplaceValues(cur, v);
        if child.Err? {
          return Err(child.error);
        }
      } else if !cur.VDict? {
        return Err(WrongOperandType);
      } else {
        var sub := Get(cur.entries, k);
        if sub.None? {
          return Err(MissingKey(k));
        }
        var sub' := ReplaceValues(sub.value, v);
        if sub'.Err? {
          return Err(sub'.error);
        }
        cur := VDict(Put(cur.entries, k, sub'.value));
      }
      i := i + 1;
    }
    return Ok(cur);
  }

  /** An override key ending in `$` deletes the parameter it names and adds
      itself with the override's value, leaving every other parameter as it
      was; a KeyError when the named parameter is not there. */
  lemma {:induction false} OverrideStep(src: Dict<Key, Value>, s: string, v: Value)
    requires EndsWithDollar(s)
    ensures var orig := KStr(Original(s));
      var r := ReplaceEntry(VDict(src), KStr(s), v);
      && (r.Ok? <==> HasKey(src, orig))
      && (!HasKey(src, orig) ==> r == Err(MissingKey(orig)))
      && (r.Ok? ==>
            && r.value.VDict?
            && Get(r.value.entries, KStr(s)) == Some(v)
            && Get(r.value.entries, orig) == None
            && forall k :: k != orig && k != KStr(s) ==> Get(r.value.entries, k) == Get(src, k))
  {
    var orig := KStr(Original(s));
    assert orig != KStr(s);
    if HasKey(src, orig) {
      var d := Remove(src, orig);
      PutGet(d, KStr(s), v, KStr(s));
      PutGet(d, KStr(s), v, orig);
      RemoveGet(src, orig, orig);
      forall k | k != orig && k != KStr(s) ensures Get(Put(d, KStr(s), v), k) == Get(src, k) {
        PutGet(d, KStr(s), v, k);
        RemoveGet(src, orig, k);
      }
    }
  }

  /** Any other key descends into the parameter of that name, which must be
      there (KeyError otherwise): it is replaced in its place by its
      rewritten value, and the other parameters are left as they were. */
  lemma {:induction false} NestedStep(src: Dict<Key, Value>, s: string, v: Value)
    requires !EndsWithDollar(s)
    ensures var k := KStr(s);
      var r := ReplaceEntry(VDict(src), k, v);
      && (Get(src, k).None? ==> r == Err(MissingKey(k)))
      && (Get(src, k).Some? ==>
           && (r.Ok? <==> Replaced(Get(src, k).value, v).Ok?)
           && (r.Ok? ==>
                 && r.value.VDict?
                 && Get(r.value.entries, k) == Some(Replaced(Get(src, k).value, v).value)
                 && Keys(r.value.entries) == Keys(src)
                 && forall k' :: k' != k ==> Get(r.value.entries, k') == Get(src, k')))
  {
    var k := KStr(s);
    var r := ReplaceEntry(VDict(src), k, v);
    match Get(src, k)
    case None =>
      assert r == Err(MissingKey(k));
    case Some(sub) =>
      var rs := Replaced(sub, v);
      if rs.Ok? {
        assert r == Ok(VDict(Put(src, k, rs.value)));
        PutElsewhere(src, k, rs.value);
      } else {
        assert r == Err(rs.error);
      }
  }

  /** `d[k] = x` on a dict holding `k`: `k` maps to `x`, the keys and their
      order stay, and every other key keeps its value. */
  lemma {:induction false} PutElsewhere(d: Dict<Key, Value>, k: Key, x: Value)
    requires Get(d, k).Some?
    ensures Get(Put(d, k, x), k) == Some(x)
    ensures Keys(Put(d, k, x)) == Keys(d)
    ensures forall k' :: k' != k ==> Get(Put(d, k, x), k') == Get(d, k')
  {
    GetSpec(d, k);
    PutKeys(d, k, x);
    PutGet(d, k, x, k);
    forall k' | k' != k ensures Get(Put(d, k, x), k') == Get(d, k') {
      PutGet(d, k, x, k');
    }
  }

  /** Anything but a dict or a placeholder cannot be subscripted (TypeError),
      and an integer key has no `endswith` (AttributeError). */
  lemma {:induction false} EntryErrors(src: Value, k: Key, v: Value)
    ensures k.KInt? ==> ReplaceEntry(src, k, v) == Err(MissingAttribute("endswith"))
    ensures k.KStr? && !src.VDict? && !src.VPlaceholder? ==> ReplaceEntry(src, k, v) == Err(WrongOperandType)
    ensures k.KStr? && EndsWithDollar(k.s) && src.VPlaceholder? ==> ReplaceEntry(src, k, v) == Err(WrongOperandType)
  {
  }

  /** Rewriting never turns a dict into anything else, and leaves anything
      that is not a dict exactly as it was. */
  lemma {:induction false} ReplacedKeepsKind(src: Value, dest: Value)
    requires Replaced(src, dest).Ok?
    ensures src.VDict? ==> Replaced(src, dest).value.VDict?
    ensures !src.VDict? ==> Replaced(src, dest).value == src
  {
    if dest.VDict? {
      ReplacedFromKeepsKind(src, dest, 0);
    }
  }

  lemma {:induction false} ReplacedFromKeepsKind(src: Value, dest: Value, i: nat)
    requires dest.VDict? && ReplacedFrom(src, dest, i).Ok?
    ensures src.VDict? ==> ReplacedFrom(src, dest, i).value.VDict?
    ensures !src.VDict? ==> ReplacedFrom(src, dest, i).value == src
    decreases |dest.entries| - i
  {
    if i < |dest.entries| {
      var src' := ReplaceEntry(src, dest.entries[i].0, dest.entries[i].1).value;
      assert src.VDict? ==> src'.VDict?;
      assert !src.VDict? ==> src' == src;
      ReplacedFromKeepsKind(src', dest, i + 1);
    }
  }

  /** The override tree names the parameter `k` at its top level: as a key,
      or as the parameter an override key `k.$` replaces. */
  predicate Named(dest: Dict<Key, Value>, k: Key)
  {
    exists j :: 0 <= j < |dest| &&
      (dest[j].0 == k || (dest[j].0.KStr? && EndsWithDollar(dest[j].0.s) && k == KStr(Original(dest[j].0.s))))
  }

  /** A parameter the overrides do not name keeps its value. */
  lemma {:induction false} UnnamedKept(src: Dict<Key, Value>, dest: Dict<Key, Value>, k: Key)
    requires Replaced(VDict(src), VDict(dest)).Ok? && !Named(dest, k)
    ensures Replaced(VDict(src), VDict(dest)).value.VDict?
    ensures Get(Replaced(VDict(src), VDict(dest)).value.entries, k) == Get(src, k)
  {
    UnnamedKeptFrom(VDict(src), VDict(dest), 0, k);
  }

  lemma {:induction false} UnnamedStep(src: Dict<Key, Value>, ki: Key, vi: Value, k: Key)
    requires ReplaceEntry(VDict(src), ki, vi).Ok? && k != ki
    requires ki.KStr? && EndsWithDollar(ki.s) ==> k != KStr(Original(ki.s))
    ensures ReplaceEntry(VDict(src), ki, vi).value.VDict?
    ensures Get(ReplaceEntry(VDict(src), ki, vi).value.entries, k) == Get(src, k)
  {
    if EndsWithDollar(ki.s) {
      OverrideStep(src, ki.s, vi);
    } else {
      NestedStep(src, ki.s, vi);
    }
  }

  lemma {:induction false} UnnamedKeptFrom(src: Value, dest: Value, i: nat, k: Key)
    requires src.VDict? && dest.VDict? && ReplacedFrom(src, dest, i).Ok? && !Named(dest.entries, k)
    ensures ReplacedFrom(src, dest, i).value.VDict?
    ensures Get(ReplacedFrom(src, dest, i).value.entries, k) == Get(src.entries, k)
    decreases |dest.entries| - i
  {
    if i < |dest.entries| {
      var ki := dest.entries[i].0;
      var vi := dest.entries[i].1;
      UnnamedStep(src.entries, ki, vi, k);
      UnnamedKeptFrom(ReplaceEntry(src, ki, vi).value, dest, i + 1, k);
    }
  }

  /** A key of the override tree that ends in `$`: the result holds the
      override under it, not anything of the step's. */
  predicate IsOverrideKey(dest: Dict<Key, Value>, k: Key)
  {
    k.KStr? && EndsWithDollar(k.s) && HasKey(dest, k)
  }

  /** A key that descends into a nested parameter. */
  predicate IsPlainKey(k: Key)
  {
    k.KStr? && !EndsWithDollar(k.s)
  }

  /** What the parameter `k`, holding `x`, holds after the first `i`
      override keys: a nested value rewritten in place when one of them
      descended into it, `x` otherwise. */
  function SharedUpTo(dest: Dict<Key, Value>, i: nat, k: Key, x: Value): Value
    requires i <= |dest|
  {
    if IsPlainKey(k) && HasKey(dest[..i], k) && Get(dest, k).Some? && Replaced(x, Get(dest, k).value).Ok?
    then Replaced(x, Get(dest, k).value).value
    else x
  }

  /** The step's own `parameters` after a rewriting that succeeded: only the
      top level was copied, so every nested parameter an override descended
      into was rewritten in the step as well; the top-level keys are those it
      had. */
  function StepAfter(src: Dict<Key, Value>, dest: Dict<Key, Value>): (after: Dict<Key, Value>)
    ensures Keys(after) == Keys(src)
  {
    if src == [] then []
    else [(src[0].0, SharedUpTo(dest, |dest|, src[0].0, src[0].1))] + StepAfter(src[1..], dest)
  }

  lemma {:induction false} StepAfterGet(src: Dict<Key, Value>, dest: Dict<Key, Value>, k: Key)
    ensures Get(StepAfter(src, dest), k) ==
      if Get(src, k).Some? then Some(SharedUpTo(dest, |dest|, k, Get(src, k).value)) else None
  {
    if src != [] {
      StepAfterGet(src[1..], dest, k);
    }
  }

  /** The fold invariant of the sharing argument after `i` override keys:
      each parameter still in `cur` that no override key replaced came from
      the step, and holds what the step itself holds at that point. */
  ghost predicate SharedInv(src: Dict<Key, Value>, dest: Dict<Key, Value>, i: nat, cur: Dict<Key, Value>)
    requires i <= |dest|
  {
    forall k :: HasKey(cur, k) && !IsOverrideKey(dest, k) ==>
      Get(src, k).Some? && Get(cur, k) == Some(SharedUpTo(dest, i, k, Get(src, k).value))
  }

  lemma {:induction false} PrefixHasKey(dest: Dict<Key, Value>, i: nat, k: Key)
    requires i < |dest|
    ensures HasKey(dest[..i + 1], k) <==> HasKey(dest[..i], k) || dest[i].0 == k
  {
    assert dest[..i + 1] == dest[..i] + [dest[i]];
    KeysConcat(dest[..i], [dest[i]]);
  }

  lemma {:induction false} SharedStep(src: Dict<Key, Value>, dest: Dict<Key, Value>, i: nat, cur: Dict<Key, Value>)
    requires KeysUnique(dest) && i < |dest| && SharedInv(src, dest, i, cur)
    requires ReplaceEntry(VDict(cur), dest[i].0, dest[i].1).Ok?
    ensures ReplaceEntry(VDict(cur), dest[i].0, dest[i].1).value.VDict?
    ensures SharedInv(src, dest, i + 1, ReplaceEntry(VDict(cur), dest[i].0, dest[i].1).value.entries)
  {
    var (ki, vi) := dest[i];
    var cur' := ReplaceEntry(VDict(cur), ki, vi).value;
    assert HasKey(dest, ki) by { assert Keys(dest)[i] == ki; }
    GetUnique(dest, i);
    if EndsWithDollar(ki.s) {
      OverrideStep(cur, ki.s, vi);
      forall k | HasKey(cur'.entries, k) && !IsOverrideKey(dest, k)
        ensures Get(src, k).Some? && Get(cur'.entries, k) == Some(SharedUpTo(dest, i + 1, k, Get(src, k).value))
      {
        GetSpec(cur'.entries, k);
        GetSpec(cur, k);
        PrefixHasKey(dest, i, k);
      }
    } else {
      NestedStep(cur, ki.s, vi);
      GetSpec(cur, ki);
      assert !HasKey(dest[..i], ki);
      forall k | HasKey(cur'.entries, k) && !IsOverrideKey(dest, k)
        ensures Get(src, k).Some? && Get(cur'.entries, k) == Some(SharedUpTo(dest, i + 1, k, Get(src, k).value))
      {
        PrefixHasKey(dest, i, k);
      }
    }
  }

  lemma {:induction false} SharedFrom(src: Dict<Key, Value>, dest: Dict<Key, Value>, i: nat, cur: Dict<Key, Value>)
    requires KeysUnique(dest) && i <= |dest| && SharedInv(src, dest, i, cur)
    requires ReplacedFrom(VDict(cur), VDict(dest), i).Ok?
    ensures ReplacedFrom(VDict(cur), VDict(dest), i).value.VDict?
    ensures SharedInv(src, dest, |dest|, ReplacedFrom(VDict(cur), VDict(dest), i).value.entries)
    decreases |dest| - i
  {
    if i < |dest| {
      SharedStep(src, dest, i, cur);
      var cur' := ReplaceEntry(VDict(cur), dest[i].0, dest[i].1).value;
      SharedFrom(src, dest, i + 1, cur'.entries);
    }
  }

  /** The result and the step share their nested parameters: every
      parameter of the result that no override key replaced is the step's
      own parameter, holding the same value the step now holds. */
  lemma {:induction false} ShallowCopyShared(src: Dict<Key, Value>, dest: Dict<Key, Value>)
    requires KeysUnique(dest) && Replaced(VDict(src), VDict(dest)).Ok?
    ensures var r := Replaced(VDict(src), VDict(dest)).value;
      && r.VDict?
      && forall k :: HasKey(r.entries, k) && !IsOverrideKey(dest, k) ==>
           HasKey(src, k) && Get(r.entries, k) == Get(StepAfter(src, dest), k)
  {
    assert SharedInv(src, dest, 0, src) by {
      forall k | HasKey(src, k) && !IsOverrideKey(dest, k)
        ensures Get(src, k).Some? && Get(src, k) == Some(SharedUpTo(dest, 0, k, Get(src, k).value))
      {
        GetSpec(src, k);
        assert dest[..0] == [];
      }
    }
    SharedFrom(src, dest, 0, src);
    var r := Replaced(VDict(src), VDict(dest)).value;
    forall k | HasKey(r.entries, k) && !IsOverrideKey(dest, k)
      ensures HasKey(src, k) && Get(r.entries, k) == Get(StepAfter(src, dest), k)
    {
      GetSpec(src, k);
      StepAfterGet(src, dest, k);
    }
  }

  /** In the step, a parameter the overrides do not name keeps its value,
      and one they descend into holds its rewritten value. */
  lemma {:induction false} StepAfterSpec(src: Dict<Key, Value>, dest: Dict<Key, Value>, k: Key)
    requires KeysUnique(dest) && Replaced(VDict(src), VDict(dest)).Ok?
    ensures !HasKey(dest, k) ==> Get(StepAfter(src, dest), k) == Get(src, k)
    ensures IsPlainKey(k) && Get(dest, k).Some? && Get(src, k).Some? ==>
      && Replaced(Get(src, k).value, Get(dest, k).value).Ok?
      && Get(StepAfter(src, dest), k) == Some(Replaced(Get(src, k).value, Get(dest, k).value).value)
  {
    StepAfterGet(src, dest, k);
    assert dest[..|dest|] == dest;
    GetSpec(src, k);
    GetSpec(dest, k);
    if IsPlainKey(k) && Get(dest, k).Some? && Get(src, k).Some? {
      var j :| 0 <= j < |dest| && Keys(dest)[j] == k;
      GetUnique(dest, j);
      RewrittenBeforeUse(src, dest, j);
    }
  }

  /** When the rewriting succeeded, each key that descended did so into the
      step's own value, and that rewriting succeeded. */
  lemma {:induction false} RewrittenBeforeUse(src: Dict<Key, Value>, dest: Dict<Key, Value>, j: nat)
    requires KeysUnique(dest) && j < |dest| && IsPlainKey(dest[j].0) && Get(src, dest[j].0).Some?
    requires Replaced(VDict(src), VDict(dest)).Ok?
    ensures Replaced(Get(src, dest[j].0).value, dest[j].1).Ok?
  {
    assert SharedInv(src, dest, 0, src) by {
      forall k | HasKey(src, k) && !IsOverrideKey(dest, k)
        ensures Get(src, k).Some? && Get(src, k) == Some(SharedUpTo(dest, 0, k, Get(src, k).value))
      {
        GetSpec(src, k);
        assert dest[..0] == [];
      }
    }
    RewrittenFrom(src, dest, 0, src, j);
  }

  lemma {:induction false} RewrittenHere(src: Dict<Key, Value>, dest: Dict<Key, Value>, i: nat, cur: Dict<Key, Value>)
    requires KeysUnique(dest) && i < |dest| && IsPlainKey(dest[i].0) && Get(src, dest[i].0).Some?
    requires SharedInv(src, dest, i, cur)
    requires ReplaceEntry(VDict(cur), dest[i].0, dest[i].1).Ok?
    ensures Replaced(Get(src, dest[i].0).value, dest[i].1).Ok?
  {
    var k := dest[i].0;
    NestedStep(cur, k.s, dest[i].1);
    GetSpec(cur, k);
    assert !HasKey(dest[..i], k);
  }

  lemma {:induction false} RewrittenFrom(src: Dict<Key, Value>, dest: Dict<Key, Value>, i: nat, cur: Dict<Key, Value>, j: nat)
    requires KeysUnique(dest) && i <= j < |dest| && IsPlainKey(dest[j].0) && Get(src, dest[j].0).Some?
    requires SharedInv(src, dest, i, cur)
    requires ReplacedFrom(VDict(cur), VDict(dest), i).Ok?
    ensures Replaced(Get(src, dest[j].0).value, dest[j].1).Ok?
    decreases j - i
  {
    if i == j {
      RewrittenHere(src, dest, i, cur);
    } else {
      SharedStep(src, dest, i, cur);
      RewrittenFrom(src, dest, i + 1, ReplaceEntry(VDict(cur), dest[i].0, dest[i].1).value.entries, j);
    }
  }

  /** `replace_parameters_with_jsonpath(step, params)`, given the step's
      `parameters` (None when it has none). It returns the rewritten copy and
      what the step's own parameters hold afterwards. */
  method ReplaceParametersWithJsonPath(parameters: Value, overrides: Value) returns (r: Result<Value, Error>, after: Value)
    ensures !(parameters.VDict? || parameters.VList?) ==> r == Err(MissingAttribute("copy")) && after == parameters
    ensures parameters.VDict? || parameters.VList? ==> r == Replaced(parameters, overrides)
    ensures r.Ok? && parameters.VDict? && overrides.VDict? ==> after == VDict(StepAfter(parameters.entries, overrides.entries))
    ensures r.Ok? && !(parameters.VDict? && overrides.VDict?) ==> after == parameters
  {
    if !(parameters.VDict? || parameters.VList?) {
      return Err(MissingAttribute("copy")), parameters;
    }
    r := ReplaceValues(parameters, overrides);
    after := if r.Ok? && parameters.VDict? && overrides.VDict?
             then VDict(StepAfter(parameters.entries, overrides.entries))
             else parameters;
  }
}
