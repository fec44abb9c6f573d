/** The Python values that flow through the document builder: state fields,
    `Parameters` trees, placeholder references, schema types, and the
    exceptions the builder raises. */
module PyValues {
  import opened Wrappers
  import opened Dicts

  /** Dictionary keys used by the builder: strings and integers. */
  datatype Key = KStr(s: string) | KInt(i: int)

  /** The Python classes the builder tests values against. */
  datatype PyType = TStr | TInt | TFloat | TBool | TDict | TList | TNoneType | TType | TPlaceholder | TStep

  /** A reference to a State or a Chain object (an index into the workspace). */
  datatype Ref = StateRef(s: nat) | ChainRef(c: nat)

  /** A Python value. `VPlaceholder(p)` is the placeholder object `p`,
      `VRef(r)` a State or Chain object, `VType(t)` a class object. */
  datatype Value =
    | VNone
    | VBool(b: bool)
    | VInt(i: int)
    | VFloat(r: real)
    | VStr(s: string)
    | VList(items: seq<Value>)
    | VDict(entries: Dict<Key, Value>)
    | VPlaceholder(p: nat)
    | VRef(ref: Ref)
    | VType(t: PyType)

  /** The exceptions raised by the builder; `ExceptionClass` names the Python class of each. */
  datatype Error =
    | UnsupportedField(field: string)
    | WaitNeedsExactlyOne
    | TimeoutBothGiven
    | HeartbeatBothGiven
    | NextNotSupported
    | RetryNotSupported
    | CatchNotSupported
    | NotCallable
    | ChainNotAList
    | DuplicateStatesInChain
    | EmptyChain
    | NotAStateOrChain
    | DuplicateStateId(id: string)
    | IllegalPlaceholder(stateId: string, param: Key)
    | InvalidKeyName
    | KeyTypeConflict
    | SchemaViolation
    | NotImplemented
    | InvalidVariable
    | ValueTypeMismatch(family: string)
    | InvalidRule
    | MissingKey(key: Key)
    | MissingAttribute(name: string)
    | WrongOperandType
    | RecursionLimit
    | NotAnIntegrationPattern
    | PatternNotSupported
    | NoResourceFlag
    | MultipleResourceFlags

  function ExceptionClass(e: Error): string
  {
    match e
    case UnsupportedField(_) => "TypeError"
    case NotCallable => "TypeError"
    case ChainNotAList => "TypeError"
    case WrongOperandType => "TypeError"
    case NotAnIntegrationPattern => "TypeError"
    case DuplicateStatesInChain => "DuplicateStatesInChain"
    case MissingKey(_) => "KeyError"
    case MissingAttribute(_) => "AttributeError"
    case NotImplemented => "NotImplementedError"
    case RecursionLimit => "RecursionError"
    case _ => "ValueError"
  }

  /** `isinstance(v, t)`; `bool` is a subclass of `int`. */
  predicate IsInstance(v: Value, t: PyType)
  {
    match t
    case TStr => v.VStr?
    case TInt => v.VInt? || v.VBool?
    case TFloat => v.VFloat?
    case TBool => v.VBool?
    case TDict => v.VDict?
    case TList => v.VList?
    case TNoneType => v.VNone?
    case TType => v.VType?
    case TPlaceholder => v.VPlaceholder?
    case TStep => v.VRef?
  }

  /** `type(v)`. */
  function TypeOf(v: Value): (t: PyType)
    ensures IsInstance(v, t)
  {
    match v
    case VNone => TNoneType
    case VBool(_) => TBool
    case VInt(_) => TInt
    case VFloat(_) => TFloat
    case VStr(_) => TStr
    case VList(_) => TList
    case VDict(_) => TDict
    case VPlaceholder(_) => TPlaceholder
    case VRef(_) => TStep
    case VType(_) => TType
  }

  /** `t.__name__`. */
  function TypeName(t: PyType): string
  {
    match t
    case TStr => "str"
    case TInt => "int"
    case TFloat => "float"
    case TBool => "bool"
    case TDict => "dict"
    case TList => "list"
    case TNoneType => "NoneType"
    case TType => "type"
    case TPlaceholder => "Placeholder"
    case TStep => "State"
  }

  /** Python truthiness: `None`, `False`, zero and empty containers are false. */
  predicate Falsy(v: Value)
  {
    match v
    case VNone => true
    case VBool(b) => !b
    case VInt(i) => i == 0
    case VFloat(r) => r == 0.0
    case VStr(s) => s == ""
    case VList(items) => items == []
    case VDict(es) => es == []
    case _ => false
  }

  /** The number a bool, int or float stands for in comparisons. */
  function Numeric(v: Value): Option<real>
  {
    match v
    case VBool(b) => Some(if b then 1.0 else 0.0)
    case VInt(i) => Some(i as real)
    case VFloat(r) => Some(r)
    case _ => None
  }

  /** Python `==`: numbers compare by value across bool/int/float, lists
      element by element, dicts regardless of key order; other objects by
      identity or by their own value. */
  predicate PyEq(a: Value, b: Value)
    decreases a, 0
  {
    if a.VList? && b.VList? then
      |a.items| == |b.items| && forall i :: 0 <= i < |a.items| ==> PyEq(a.items[i], b.items[i])
    else if a.VDict? && b.VDict? then
      |a.entries| == |b.entries| &&
      forall i :: 0 <= i < |a.entries| ==> DictHas(b.entries, a.entries[i].0, a.entries[i].1)
    else if Numeric(a).Some? && Numeric(b).Some? then Numeric(a) == Numeric(b)
    else a == b
  }

  /** `k in d and d[k] == v`, looking at every pair of `d`. */
  predicate DictHas(d: Dict<Key, Value>, k: Key, v: Value)
    decreases v, 1
  {
    exists j :: 0 <= j < |d| && d[j].0 == k && PyEq(v, d[j].1)
  }

  /** Every object is equal to itself. */
  lemma {:induction false} PyEqReflexive(v: Value)
    ensures PyEq(v, v)
  {
    match v
    case VList(x) =>
      forall i | 0 <= i < |x| ensures PyEq(x[i], x[i]) {
        PyEqReflexive(x[i]);
      }
    case VDict(x) =>
      forall i | 0 <= i < |x| ensures DictHas(x, x[i].0, x[i].1) {
        PyEqReflexive(x[i].1);
      }
    case _ =>
  }

  function DigitChar(d: nat): char
    requires d < 10
  {
    "0123456789"[d]
  }

  /** `str(n)` for a natural number. */
  function NatToString(n: nat): (s: string)
    ensures |s| >= 1 && forall i :: 0 <= i < |s| ==> '0' <= s[i] <= '9'
  {
    if n < 10 then [DigitChar(n)] else NatToString(n / 10) + [DigitChar(n % 10)]
  }

  /** `str(i)` for an integer. */
  function IntToString(i: int): string
  {
    if i < 0 then "-" + NatToString(-i) else NatToString(i)
  }

  /** `'{}'.format(k)` for a dictionary key. */
  function KeyText(k: Key): string
  {
    match k
    case KStr(s) => s
    case KInt(i) => IntToString(i)
  }

  /** A key as the Python value it is. */
  function KeyValue(k: Key): (v: Value)
    ensures v.VStr? || v.VInt?
  {
    match k
    case KStr(s) => VStr(s)
    case KInt(i) => VInt(i)
  }

  /** Every dict inside `v` holds each key once, as Python dicts do. */
  predicate WellFormed(v: Value)
  {
    match v
    case VList(x) => forall i :: 0 <= i < |x| ==> WellFormed(x[i])
    case VDict(x) => KeysUnique(x) && forall i :: 0 <= i < |x| ==> WellFormed(x[i].1)
    case _ => true
  }

  /** Every placeholder object inside `v` is one of the first `n`. */
  predicate PlaceholdersBelow(v: Value, n: nat)
  {
    match v
    case VList(x) => forall i :: 0 <= i < |x| ==> PlaceholdersBelow(x[i], n)
    case VDict(x) => forall i :: 0 <= i < |x| ==> PlaceholdersBelow(x[i].1, n)
    case VPlaceholder(p) => p < n
    case _ => true
  }
}
