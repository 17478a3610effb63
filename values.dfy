/**
 * The Python values the companion stores, resolves and passes to callables,
 * the exceptions it raises or lets through, and the host it runs in: the
 * module table behind `importlib.import_module` and the callables behind
 * `f(*args, **kwargs)`.
 */
module Values {

  /** The Python exception classes the core raises or propagates. */
  datatype ErrorKind =
    | AssertionError        // the import-grammar check of resolve_import
    | AttributeError        // a missing attribute, or a name that cannot be inferred
    | TypeError             // unhashable key, bad argument binding, `in` on a non-container
    | SyntaxError           // eval of a path that is not a dotted Python name
    | KeyError              // a command envelope without a known command name
    | ModuleNotFoundError   // import_module of a path the host does not have
    | Raised(name: string)  // an Exception subclass raised inside an invoked callable
    | BaseOnly(name: string) // a BaseException outside Exception (SystemExit, KeyboardInterrupt)

  /** Whether `except Exception` catches the error. */
  predicate IsException(e: ErrorKind) {
    !e.BaseOnly?
  }

  /** A Python computation: a value, or the exception it raised. */
  datatype Result<+T> = Ok(value: T) | Err(error: ErrorKind)

  /**
   * A Python value. Objects (modules, classes, functions, instances) carry
   * an identity and their attribute dictionary; RefV holds a live object of
   * this program (the companion, the liaison); ExcV is a caught exception.
   */
  datatype Value =
    | NoneV
    | BoolV(b: bool)
    | IntV(i: int)
    | StrV(s: string)
    | ListV(items: seq<Value>)
    | DictV(entries: seq<(Value, Value)>)
    | ObjV(id: nat, attrs: map<string, Value>)
    | RefV(o: object)
    | ExcV(kind: ErrorKind)

  /** A namespace dictionary: Python dict keys are any hashable value. */
  type Namespace = map<Value, Value>

  /** Lists and dicts cannot be dictionary keys. */
  predicate Hashable(v: Value) {
    !(v.ListV? || v.DictV?)
  }

  /**
   * What the core cannot see: the modules `importlib.import_module` finds,
   * what calling a value does, and the `builtins` dictionary that `eval`
   * inserts into a globals dictionary lacking one.
   */
  datatype Host = Host(
    modules: map<string, Value>,
    invoke: (Value, seq<Value>, seq<(string, Value)>) -> Result<Value>,
    builtins: Value)

  // ---- dictionaries as insertion-ordered entry lists ----

  predicate HasKey(entries: seq<(Value, Value)>, k: Value) {
    exists j :: 0 <= j < |entries| && entries[j].0 == k
  }

  /** `d[k]`: the value of the first entry with key `k`. */
  function Lookup(entries: seq<(Value, Value)>, k: Value): (v: Value)
    requires HasKey(entries, k)
    ensures exists j :: 0 <= j < |entries| && entries[j] == (k, v)
  {
    if entries[0].0 == k then entries[0].1
    else
      assert exists j :: 1 <= j < |entries| && entries[j].0 == k;
      assert HasKey(entries[1..], k) by {
        var j :| 1 <= j < |entries| && entries[j].0 == k;
        assert entries[1..][j - 1].0 == k;
      }
      var v := Lookup(entries[1..], k);
      assert exists j :: 0 <= j < |entries[1..]| && entries[1..][j] == (k, v);
      var j :| 0 <= j < |entries[1..]| && entries[1..][j] == (k, v);
      assert entries[j + 1] == (k, v);
      v
  }

  /** `d[k]`: the value of the first entry with key `k`, or KeyError. */
  function DictIndex(entries: seq<(Value, Value)>, k: Value): (r: Result<Value>)
    ensures r.Ok? <==> HasKey(entries, k)
    ensures r.Err? ==> r.error == KeyError
    ensures r.Ok? ==> exists j :: 0 <= j < |entries| && entries[j] == (k, r.value)
  {
    if HasKey(entries, k) then Ok(Lookup(entries, k)) else Err(KeyError)
  }

  /** `d.get(k, default)`. */
  function DictGet(entries: seq<(Value, Value)>, k: Value, default: Value): Value {
    if HasKey(entries, k) then Lookup(entries, k) else default
  }

  lemma HasKeyTail(entries: seq<(Value, Value)>, k: Value)
    requires entries != [] && entries[0].0 != k
    ensures HasKey(entries, k) <==> HasKey(entries[1..], k)
  {
    if HasKey(entries, k) {
      var j :| 0 <= j < |entries| && entries[j].0 == k;
      assert entries[1..][j - 1].0 == k;
    }
    if HasKey(entries[1..], k) {
      var j :| 0 <= j < |entries[1..]| && entries[1..][j].0 == k;
      assert entries[j + 1].0 == k;
    }
  }

  /** A key of `e + f` is a key of `e` or of `f`; the first entry, in `e` when there is one, gives its value. */
  lemma {:induction false} LookupAppend(e: seq<(Value, Value)>, f: seq<(Value, Value)>, k: Value)
    ensures HasKey(e + f, k) <==> HasKey(e, k) || HasKey(f, k)
    ensures HasKey(e, k) ==> Lookup(e + f, k) == Lookup(e, k)
    ensures !HasKey(e, k) && HasKey(f, k) ==> Lookup(e + f, k) == Lookup(f, k)
  {
    if e == [] {
      assert e + f == f;
    } else {
      assert (e + f)[1..] == e[1..] + f;
      LookupAppend(e[1..], f, k);
      if e[0].0 != k {
        HasKeyTail(e, k);
        HasKeyTail(e + f, k);
      } else {
        assert (e + f)[0].0 == k;
      }
      if HasKey(f, k) {
        var j :| 0 <= j < |f| && f[j].0 == k;
        assert (e + f)[|e| + j].0 == k;
      }
    }
  }

  /** `d[k] = v`: an existing key keeps its place and takes the new value; a new key goes last. */
  function DictInsert(entries: seq<(Value, Value)>, k: Value, v: Value): (r: seq<(Value, Value)>)
    ensures !HasKey(entries, k) ==> r == entries + [(k, v)]
    ensures HasKey(entries, k) ==>
      |r| == |entries| && forall j :: 0 <= j < |r| ==> r[j].0 == entries[j].0
    ensures HasKey(entries, k) ==> forall j :: 0 <= j < |r| && entries[j].0 != k ==> r[j] == entries[j]
  {
    if entries == [] then [(k, v)]
    else if entries[0].0 == k then [(k, v)] + entries[1..]
    else
      HasKeyTail(entries, k);
      [entries[0]] + DictInsert(entries[1..], k, v)
  }

  /** After `d[k] = v`, `d[k]` is `v`. */
  lemma {:induction false} DictInsertLookup(entries: seq<(Value, Value)>, k: Value, v: Value)
    ensures HasKey(DictInsert(entries, k, v), k) && Lookup(DictInsert(entries, k, v), k) == v
  {
    var r := DictInsert(entries, k, v);
    if entries == [] || entries[0].0 == k {
      assert r[0].0 == k;
    } else {
      DictInsertLookup(entries[1..], k, v);
      HasKeyTail(r, k);
    }
  }

  // ---- attribute access ----

  /**
   * `getattr(v, name)`. Only objects carry attributes in this model; any
   * other value raises AttributeError.
   */
  function GetAttr(v: Value, name: string): (r: Result<Value>)
    ensures r.Ok? <==> v.ObjV? && name in v.attrs
    ensures r.Ok? ==> r.value == v.attrs[name]
    ensures r.Err? ==> r.error == AttributeError
  {
    if v.ObjV? && name in v.attrs then Ok(v.attrs[name]) else Err(AttributeError)
  }

  /** `getattr` applied for each name in turn, left to right; the first failure stops the walk. */
  function Walk(v: Value, names: seq<string>): Result<Value>
    decreases |names|
  {
    if names == [] then Ok(v)
    else match GetAttr(v, names[0])
      case Err(e) => Err(e)
      case Ok(u) => Walk(u, names[1..])
  }

  /** Continues a walk that may already have failed. */
  function WalkFrom(r: Result<Value>, names: seq<string>): Result<Value> {
    match r
    case Err(e) => Err(e)
    case Ok(v) => Walk(v, names)
  }

  /** A walk over `xs + ys` is the walk over `xs` followed by the walk over `ys`. */
  lemma {:induction false} WalkAppend(v: Value, xs: seq<string>, ys: seq<string>)
    ensures Walk(v, xs + ys) == WalkFrom(Walk(v, xs), ys)
    decreases |xs|
  {
    if xs == [] {
      assert xs + ys == ys;
    } else {
      assert (xs + ys)[0] == xs[0];
      assert (xs + ys)[1..] == xs[1..] + ys;
      match GetAttr(v, xs[0])
      case Err(e) =>
      case Ok(u) => WalkAppend(u, xs[1..], ys);
    }
  }

  /** A walk succeeds exactly when every step finds its attribute; it then ends at the last one. */
  lemma {:induction false} WalkOneStep(v: Value, names: seq<string>, a: string)
    ensures Walk(v, names + [a]) ==
      match Walk(v, names)
      case Err(e) => Err(e)
      case Ok(u) => GetAttr(u, a)
  {
    WalkAppend(v, names, [a]);
    match Walk(v, names)
    case Err(e) =>
    case Ok(u) =>
      assert Walk(u, [a]) == GetAttr(u, a) by {
        assert [a][1..] == [];
      }
  }
}
