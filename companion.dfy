/**
 * The Companion: a namespace dictionary of live values, reference strings
 * resolved against it or imported by path, top-level argument
 * actualization, plain and guarded invocation, and the table of seven
 * commands a liaison dispatches to.
 *
 * Each operation is first given as a function of the host and the namespace
 * it starts from, returning its result and the namespace it leaves
 * (resolve may change the namespace too: `eval` inserts `__builtins__` into
 * the dictionary it is given as globals). The class Companion holds the
 * namespace and runs the operations in place; its methods are proved to
 * agree with those functions.
 */
module Companions {
  import opened Values
  import opened Grammar

  /** The result of an operation on the namespace, and the namespace it leaves. */
  datatype Step<T> = Step(res: Result<T>, ns: Namespace)

  /** The companion methods the command table binds, one per command name. */
  datatype Command = Get | Init | Run | Try | Register | Store | Ping

  /** `Companion.commands`. */
  function CommandTable(): (t: map<string, Command>)
    ensures t.Keys == {"get", "init", "run", "try", "register", "store", "ping"}
  {
    map["get" := Get, "init" := Init, "run" := Run, "try" := Try,
        "register" := Register, "store" := Store, "ping" := Ping]
  }

  /** The method each command name is bound to: a different one for every name. */
  lemma CommandTableEntries()
    ensures CommandTable()["get"] == Get && CommandTable()["init"] == Init
    ensures CommandTable()["run"] == Run && CommandTable()["try"] == Try
    ensures CommandTable()["register"] == Register && CommandTable()["store"] == Store
    ensures CommandTable()["ping"] == Ping
    ensures forall n1, n2 :: n1 in CommandTable() && n2 in CommandTable() ==>
      (CommandTable()[n1] == CommandTable()[n2] ==> n1 == n2)
  {
  }

  // ---- resolve_import ----

  /**
   * How resolve_import cuts a target: `target.split(":", 1)` then
   * `attrs.split(".")`, or the whole target as module path and no attributes.
   */
  function ImportParts(t: string): (string, seq<string>) {
    if ':' in t then
      var i := IndexOf(t, ':');
      (t[..i], Split(t[i + 1..], '.'))
    else (t, [])
  }

  /** What `Companion.resolve_import(target)` returns or raises. */
  function ImportOf(h: Host, target: Value): Result<Value> {
    if !target.StrV? then Err(TypeError)   // re.fullmatch of a non-string
    else if !FullMatchImport(target.s) then Err(AssertionError)
    else
      var (m, attrs) := ImportParts(target.s);
      if m !in h.modules then Err(ModuleNotFoundError)
      else Walk(h.modules[m], attrs)
  }

  // ---- resolve ----

  const BuiltinsKey: Value := StrV("__builtins__")

  /** The globals dictionary after `eval` has made sure it holds `__builtins__`. */
  function WithBuiltins(h: Host, ns: Namespace): Namespace {
    if BuiltinsKey in ns then ns else ns[BuiltinsKey := h.builtins]
  }

  /** `target.split(".")[0]`. */
  function HeadOf(t: string): string {
    Split(t, '.')[0]
  }

  /**
   * `eval(t, ns)` for a dotted path: the head is looked up in `ns` (or is one
   * of the constants None, True, False), and each further piece is an
   * attribute access. Any piece that is not a Python name is a syntax error.
   */
  function EvalPath(ns: Namespace, t: string): Result<Value>
    requires StrV(HeadOf(t)) in ns
  {
    var segs := Split(t, '.');
    if !(PyName(segs[0]) || ConstantName(segs[0])) then Err(SyntaxError)
    else if exists j :: 1 <= j < |segs| && !PyName(segs[j]) then Err(SyntaxError)
    else
      var root :=
        if segs[0] == "None" then NoneV
        else if segs[0] == "True" then BoolV(true)
        else if segs[0] == "False" then BoolV(false)
        else ns[StrV(segs[0])];
      Walk(root, segs[1..])
  }

  /** What `Companion.resolve(target)` returns or raises, and the namespace it leaves. */
  function ResolveIn(h: Host, ns: Namespace, target: Value): Step<Value> {
    if !target.StrV? then Step(Err(AttributeError), ns)   // `.split` of a non-string
    else if StrV(HeadOf(target.s)) in ns then
      var ns' := WithBuiltins(h, ns);
      Step(EvalPath(ns', target.s), ns')
    else Step(ImportOf(h, target), ns)
  }

  // ---- actualize and call ----

  /** What `Companion.actualize(arg)` returns or raises, and the namespace it leaves. */
  function ActualizeIn(h: Host, ns: Namespace, arg: Value): Step<Value> {
    if arg.StrV? && FullMatchResolve(arg.s) then ResolveIn(h, ns, StrV(arg.s[1..]))
    else Step(Ok(arg), ns)
  }

  /** `[self.actualize(arg) for arg in args]`, left to right, stopping at the first exception. */
  function ActualizeArgs(h: Host, ns: Namespace, args: seq<Value>): Step<seq<Value>>
    decreases |args|
  {
    if args == [] then Step(Ok([]), ns)
    else
      var a := ActualizeIn(h, ns, args[0]);
      if a.res.Err? then Step(Err(a.res.error), a.ns)
      else Prefixed([a.res.value], ActualizeArgs(h, a.ns, args[1..]))
  }

  /** Puts `xs` in front of a successful list result. */
  function Prefixed(xs: seq<Value>, s: Step<seq<Value>>): Step<seq<Value>> {
    if s.res.Ok? then Step(Ok(xs + s.res.value), s.ns) else s
  }

  lemma PrefixedTwice(xs: seq<Value>, ys: seq<Value>, s: Step<seq<Value>>)
    ensures Prefixed(xs, Prefixed(ys, s)) == Prefixed(xs + ys, s)
    ensures Prefixed([], s) == s
  {
    if s.res.Ok? {
      assert xs + (ys + s.res.value) == (xs + ys) + s.res.value;
      assert [] + s.res.value == s.res.value;
    }
  }

  /**
   * `{self.actualize(key): self.actualize(arg) for key, arg in kwargs.items()}`
   * continued from the dictionary `acc` built so far: for each item the key,
   * then the value, then the insertion (which needs a hashable key).
   */
  function ActualizeKwargs(h: Host, ns: Namespace, kwargs: seq<(string, Value)>, acc: seq<(Value, Value)>)
    : Step<seq<(Value, Value)>>
    decreases |kwargs|
  {
    if kwargs == [] then Step(Ok(acc), ns)
    else
      var k := ActualizeIn(h, ns, StrV(kwargs[0].0));
      if k.res.Err? then Step(Err(k.res.error), k.ns)
      else
        var v := ActualizeIn(h, k.ns, kwargs[0].1);
        if v.res.Err? then Step(Err(v.res.error), v.ns)
        else if !Hashable(k.res.value) then Step(Err(TypeError), v.ns)
        else ActualizeKwargs(h, v.ns, kwargs[1..], DictInsert(acc, k.res.value, v.res.value))
  }

  /** `**d` in a call: the keys must all be strings. */
  function KeywordArgs(d: seq<(Value, Value)>): Result<seq<(string, Value)>> {
    if d == [] then Ok([])
    else if !d[0].0.StrV? then Err(TypeError)
    else match KeywordArgs(d[1..])
      case Err(e) => Err(e)
      case Ok(rest) => Ok([(d[0].0.s, d[0].1)] + rest)
  }

  /**
   * What `Companion.call(fcn, *args, **kwargs)` returns or raises: resolve the
   * callable, actualize the positional arguments, then the keyword items,
   * then invoke.
   */
  function CallIn(h: Host, ns: Namespace, fcn: Value, args: seq<Value>, kwargs: seq<(string, Value)>)
    : Step<Value>
  {
    var f := ResolveIn(h, ns, fcn);
    if f.res.Err? then Step(Err(f.res.error), f.ns)
    else
      var a := ActualizeArgs(h, f.ns, args);
      if a.res.Err? then Step(Err(a.res.error), a.ns)
      else
        var k := ActualizeKwargs(h, a.ns, kwargs, []);
        if k.res.Err? then Step(Err(k.res.error), k.ns)
        else match KeywordArgs(k.res.value)
          case Err(e) => Step(Err(e), k.ns)
          case Ok(kw) => Step(h.invoke(f.res.value, a.res.value, kw), k.ns)
  }

  /** `{'success': success, 'result': result}`. */
  function Outcome(success: bool, result: Value): Value {
    DictV([(StrV("success"), BoolV(success)), (StrV("result"), result)])
  }

  /** What `Companion.attempt(fcn, *args, **kwargs)` returns or raises. */
  function AttemptIn(h: Host, ns: Namespace, fcn: Value, args: seq<Value>, kwargs: seq<(string, Value)>)
    : Step<Value>
  {
    var c := CallIn(h, ns, fcn, args, kwargs);
    match c.res
    case Ok(v) => Step(Ok(Outcome(true, v)), c.ns)
    case Err(e) => if IsException(e) then Step(Ok(Outcome(false, ExcV(e))), c.ns) else c
  }

  // ---- the namespace writers ----

  /**
   * A keyword that `self.call(cls, *args, **kwargs)` cannot bind: `self` is
   * bound already and `cls` fills `fcn` by position, so Python raises
   * TypeError before call starts.
   */
  predicate RebindsCallParameter(kwargs: seq<(string, Value)>) {
    exists j :: 0 <= j < |kwargs| && (kwargs[j].0 == "self" || kwargs[j].0 == "fcn")
  }

  /** What `Companion.initialize(name, cls, *args, **kwargs)` returns or raises. */
  function InitializeIn(h: Host, ns: Namespace, name: Value, cls: Value, args: seq<Value>, kwargs: seq<(string, Value)>)
    : Step<Value>
  {
    if RebindsCallParameter(kwargs) then Step(Err(TypeError), ns)
    else
    var c := CallIn(h, ns, cls, args, kwargs);
    if c.res.Err? then c
    else if !Hashable(name) then Step(Err(TypeError), c.ns)
    else Step(Ok(name), c.ns[name := c.res.value])
  }

  /**
   * What `Companion.register(name, target)` returns or raises. A name that is
   * None is inferred from the element's `__name__` attribute when it has one.
   */
  function RegisterIn(h: Host, ns: Namespace, name: Value, target: Value): Step<Value> {
    var e := ImportOf(h, target);
    if e.Err? then Step(Err(e.error), ns)
    else
      var n := if name.NoneV? then InferName(e.value) else Ok(name);
      if n.Err? then Step(Err(n.error), ns)
      else if !Hashable(n.value) then Step(Err(TypeError), ns)
      else Step(Ok(n.value), ns[n.value := e.value])
  }

  /**
   * RegisterIn with the name inference as register writes it (a containment
   * test on the element); RegisterIn, which the class follows, reads the
   * attribute instead.
   */
  function RegisterInAsWritten(h: Host, ns: Namespace, name: Value, target: Value): Step<Value> {
    var e := ImportOf(h, target);
    if e.Err? then Step(Err(e.error), ns)
    else
      var n := if name.NoneV? then InferNameAsWritten(e.value) else Ok(name);
      if n.Err? then Step(Err(n.error), ns)
      else if !Hashable(n.value) then Step(Err(TypeError), ns)
      else Step(Ok(n.value), ns[n.value := e.value])
  }

  /** `element.__name__` if `hasattr(element, "__name__")`, else AttributeError. */
  function InferName(element: Value): Result<Value> {
    GetAttr(element, "__name__")
  }

  /** `"__name__" in element` then `element.__name__`, as register writes the inference. */
  function InferNameAsWritten(element: Value): Result<Value> {
    match Contains(element, StrV("__name__"))
    case Err(e) => Err(e)
    case Ok(found) => if found then GetAttr(element, "__name__") else Err(AttributeError)
  }

  /** Python's `x in container`. Values other than strings, lists and dicts are not containers. */
  function Contains(container: Value, x: Value): Result<bool> {
    match container
    case StrV(s) => if x.StrV? then Ok(IsSubstring(x.s, s)) else Err(TypeError)
    case ListV(items) => Ok(x in items)
    case DictV(entries) => if Hashable(x) then Ok(HasKey(entries, x)) else Err(TypeError)
    case _ => Err(TypeError)
  }

  predicate IsSubstring(x: string, s: string) {
    exists i :: 0 <= i <= |s| - |x| && OccursAt(x, s, i)
  }

  predicate OccursAt(x: string, s: string, i: int)
    requires 0 <= i <= |s| - |x|
  {
    s[i..i + |x|] == x
  }

  /** What `Companion.store(name, value)` returns or raises. */
  function StoreIn(ns: Namespace, name: Value, value: Value): Step<Value> {
    if !Hashable(name) then Step(Err(TypeError), ns)
    else Step(Ok(name), ns[name := value])
  }

  // ---- the object ----

  class Companion {
    var namespace: Namespace
    const commands: map<string, Command> := CommandTable()

    /** A companion whose namespace holds only itself, under `companion`. */
    constructor ()
      ensures namespace == map[StrV("companion") := RefV(this)]
      ensures namespace.Keys == {StrV("companion")}
      ensures commands.Keys == {"get", "init", "run", "try", "register", "store", "ping"}
    {
      new;
      namespace := map[StrV("companion") := RefV(this)];
    }

    /** `Companion.resolve_import`: check the grammar, import the module, walk the attributes. */
    static method ResolveImport(h: Host, target: Value) returns (r: Result<Value>)
      ensures r == ImportOf(h, target)
    {
      if !target.StrV? {
        return Err(TypeError);
      }
      var t := target.s;
      if !FullMatchImport(t) {
        return Err(AssertionError);
      }
      var modstr: string, attrs: seq<string>;
      if ':' in t {
        var i := IndexOf(t, ':');
        modstr, attrs := t[..i], Split(t[i + 1..], '.');
      } else {
        modstr, attrs := t, [];
      }
      if modstr !in h.modules {
        return Err(ModuleNotFoundError);
      }
      var element := h.modules[modstr];
      var k := 0;
      while k < |attrs|
        invariant 0 <= k <= |attrs|
        invariant Walk(h.modules[modstr], attrs) == Walk(element, attrs[k..])
      {
        assert attrs[k..][1..] == attrs[k + 1..];
        var next := GetAttr(element, attrs[k]);
        if next.Err? {
          return Err(next.error);
        }
        element := next.value;
        k := k + 1;
      }
      r := Ok(element);
    }

    /** `Companion.resolve`: the namespace route through `eval`, or the import route. */
    method Resolve(h: Host, target: Value) returns (r: Result<Value>)
      modifies this
      ensures r == ResolveIn(h, old(namespace), target).res
      ensures namespace == ResolveIn(h, old(namespace), target).ns
    {
      if !target.StrV? {
        return Err(AttributeError);
      }
      if StrV(HeadOf(target.s)) in namespace {
        namespace := WithBuiltins(h, namespace);
        r := EvalPath(namespace, target.s);
      } else {
        r := ResolveImport(h, target);
      }
    }

    /** `Companion.actualize`. */
    method Actualize(h: Host, arg: Value) returns (r: Result<Value>)
      modifies this
      ensures r == ActualizeIn(h, old(namespace), arg).res
      ensures namespace == ActualizeIn(h, old(namespace), arg).ns
    {
      if arg.StrV? && FullMatchResolve(arg.s) {
        r := Resolve(h, StrV(arg.s[1..]));
      } else {
        r := Ok(arg);
      }
    }

    /** `Companion.call`: resolve, run the two comprehensions against the live namespace, invoke. */
    method Call(h: Host, fcn: Value, args: seq<Value>, kwargs: seq<(string, Value)>) returns (r: Result<Value>)
      modifies this
      ensures r == CallIn(h, old(namespace), fcn, args, kwargs).res
      ensures namespace == CallIn(h, old(namespace), fcn, args, kwargs).ns
    {
      var f := Resolve(h, fcn);
      if f.Err? {
        return Err(f.error);
      }
      var xs := ActualizeEach(h, args);
      if xs.Err? {
        return Err(xs.error);
      }
      var d := ActualizeItems(h, kwargs);
      if d.Err? {
        return Err(d.error);
      }
      var kw := KeywordArgs(d.value);
      if kw.Err? {
        return Err(kw.error);
      }
      r := h.invoke(f.value, xs.value, kw.value);
    }

    /** `[self.actualize(arg) for arg in args]`, one element at a time. */
    method ActualizeEach(h: Host, args: seq<Value>) returns (r: Result<seq<Value>>)
      modifies this
      ensures r == ActualizeArgs(h, old(namespace), args).res
      ensures namespace == ActualizeArgs(h, old(namespace), args).ns
    {
      var xs: seq<Value> := [];
      var i := 0;
      assert args[0..] == args;
      PrefixedTwice([], [], ActualizeArgs(h, namespace, args));
      while i < |args|
        invariant 0 <= i <= |args|
        invariant ActualizeArgs(h, old(namespace), args) == Prefixed(xs, ActualizeArgs(h, namespace, args[i..]))
      {
        assert args[i..][1..] == args[i + 1..];
        var a := Actualize(h, args[i]);
        if a.Err? {
          return Err(a.error);
        }
        PrefixedTwice(xs, [a.value], ActualizeArgs(h, namespace, args[i + 1..]));
        xs := xs + [a.value];
        i := i + 1;
      }
      assert args[i..] == [] && xs + [] == xs;
      r := Ok(xs);
    }

    /** `{self.actualize(key): self.actualize(arg) for key, arg in kwargs.items()}`, one item at a time. */
    method ActualizeItems(h: Host, kwargs: seq<(string, Value)>) returns (r: Result<seq<(Value, Value)>>)
      modifies this
      ensures r == ActualizeKwargs(h, old(namespace), kwargs, []).res
      ensures namespace == ActualizeKwargs(h, old(namespace), kwargs, []).ns
    {
      var acc: seq<(Value, Value)> := [];
      var j := 0;
      assert kwargs[0..] == kwargs;
      while j < |kwargs|
        invariant 0 <= j <= |kwargs|
        invariant ActualizeKwargs(h, old(namespace), kwargs, []) == ActualizeKwargs(h, namespace, kwargs[j..], acc)
      {
        assert kwargs[j..][1..] == kwargs[j + 1..];
        var key := Actualize(h, StrV(kwargs[j].0));
        if key.Err? {
          return Err(key.error);
        }
        var value := Actualize(h, kwargs[j].1);
        if value.Err? {
          return Err(value.error);
        }
        if !Hashable(key.value) {
          return Err(TypeError);
        }
        acc := DictInsert(acc, key.value, value.value);
        j := j + 1;
      }
      assert kwargs[j..] == [];
      r := Ok(acc);
    }

    /** `Companion.attempt`: call, with every Exception turned into a failure record. */
    method Attempt(h: Host, fcn: Value, args: seq<Value>, kwargs: seq<(string, Value)>) returns (r: Result<Value>)
      modifies this
      ensures r == AttemptIn(h, old(namespace), fcn, args, kwargs).res
      ensures namespace == AttemptIn(h, old(namespace), fcn, args, kwargs).ns
    {
      var c := Call(h, fcn, args, kwargs);
      if c.Ok? {
        r := Ok(Outcome(true, c.value));
      } else if IsException(c.error) {
        r := Ok(Outcome(false, ExcV(c.error)));
      } else {
        r := c;
      }
    }

    /** `Companion.initialize`: store what the call returns under `name`. */
    method Initialize(h: Host, name: Value, cls: Value, args: seq<Value>, kwargs: seq<(string, Value)>)
      returns (r: Result<Value>)
      modifies this
      ensures r == InitializeIn(h, old(namespace), name, cls, args, kwargs).res
      ensures namespace == InitializeIn(h, old(namespace), name, cls, args, kwargs).ns
      ensures r.Ok? ==> r.value == name && namespace[name] == CallIn(h, old(namespace), cls, args, kwargs).res.value
    {
      if RebindsCallParameter(kwargs) {
        return Err(TypeError);
      }
      var c := Call(h, cls, args, kwargs);
      if c.Err? {
        return c;
      }
      if !Hashable(name) {
        return Err(TypeError);
      }
      namespace := namespace[name := c.value];
      r := Ok(name);
    }

    /** `Companion.register`: import the element and store it under the given or inferred name. */
    method Register(h: Host, name: Value, target: Value) returns (r: Result<Value>)
      modifies this
      ensures r == RegisterIn(h, old(namespace), name, target).res
      ensures namespace == RegisterIn(h, old(namespace), name, target).ns
      ensures r.Err? ==> namespace == old(namespace)
      ensures r.Ok? ==> namespace == old(namespace)[r.value := ImportOf(h, target).value]
    {
      var element := ResolveImport(h, target);
      if element.Err? {
        return Err(element.error);
      }
      var n := name;
      if name.NoneV? {
        var inferred := InferName(element.value);
        if inferred.Err? {
          return Err(inferred.error);
        }
        n := inferred.value;
      }
      if !Hashable(n) {
        return Err(TypeError);
      }
      namespace := namespace[n := element.value];
      r := Ok(n);
    }

    /** `Companion.store`: overwrite `name`, leave every other entry alone. */
    method Store(name: Value, value: Value) returns (r: Result<Value>)
      modifies this
      ensures Hashable(name) ==> r == Ok(name) && namespace == old(namespace)[name := value]
      ensures !Hashable(name) ==> r == Err(TypeError) && namespace == old(namespace)
    {
      if !Hashable(name) {
        return Err(TypeError);
      }
      namespace := namespace[name := value];
      r := Ok(name);
    }

    /** `Companion.ping`. */
    function Ping(): (r: string)
      ensures r == "pong"
    {
      "pong"
    }
  }
}
