/**
 * BaseLiaison: the owner of a companion, and the schema-gated dispatch of a
 * command envelope `{command, args?, kwargs?}` to the companion method the
 * command table names, with Python's binding of `*args` and `**kwargs` to
 * that method's parameters.
 */
module Base {
  import opened Values
  import opened Companions

  /**
   * The parameter list of a bound companion method after `self`, which the
   * binding has already filled: named parameters without defaults, then
   * whether it takes `*args` and `**kwargs`.
   */
  datatype Signature = Signature(params: seq<string>, varargs: bool, varkw: bool)

  /**
   * The parameters of the companion method each command is bound to (after
   * `self`): `self` is never one of them, no name repeats, and a method takes
   * `*args` exactly when it takes `**kwargs`.
   */
  function SignatureOf(c: Command): (r: Signature)
    ensures "self" !in r.params && |r.params| <= 2
    ensures |r.params| == 2 ==> r.params[0] != r.params[1]
    ensures r.varargs == r.varkw
    ensures r.varargs <==> (c == Init || c == Run || c == Try)
  {
    match c
    case Get => Signature(["target"], false, false)
    case Init => Signature(["name", "cls"], true, true)
    case Run => Signature(["fcn"], true, true)
    case Try => Signature(["fcn"], true, true)
    case Register => Signature(["name", "target"], false, false)
    case Store => Signature(["name", "value"], false, false)
    case Ping => Signature([], false, false)
  }

  /** The arguments of a call after binding: one per named parameter, then the `*args` and `**kwargs` leftovers. */
  datatype Bound = Bound(named: seq<Value>, extra: seq<Value>, extraKw: seq<(string, Value)>)

  /** A keyword item named `k`. */
  predicate HasKw(kw: seq<(string, Value)>, k: string) {
    exists j :: 0 <= j < |kw| && kw[j].0 == k
  }

  /** The value of keyword `k`: that of the first item with that name. */
  function KwLookup(kw: seq<(string, Value)>, k: string): (v: Value)
    requires HasKw(kw, k)
    ensures exists j :: 0 <= j < |kw| && kw[j] == (k, v)
  {
    if kw[0].0 == k then kw[0].1
    else
      assert HasKw(kw[1..], k) by {
        var j :| 0 <= j < |kw| && kw[j].0 == k;
        assert kw[1..][j - 1].0 == k;
      }
      var v := KwLookup(kw[1..], k);
      var j :| 0 <= j < |kw[1..]| && kw[1..][j] == (k, v);
      assert kw[j + 1] == (k, v);
      v
  }

  /** The keyword arguments that name no parameter, in the order of the call: what `**kwargs` collects. */
  function OtherKeywords(kw: seq<(string, Value)>, params: seq<string>): (r: seq<(string, Value)>)
    ensures forall j :: 0 <= j < |r| ==> r[j].0 !in params && r[j] in kw
    ensures forall j :: 0 <= j < |kw| && kw[j].0 !in params ==> kw[j] in r
  {
    if kw == [] then []
    else
      var rest := OtherKeywords(kw[1..], params);
      assert forall j :: 1 <= j < |kw| ==> kw[j] == kw[1..][j - 1];
      if kw[0].0 in params then rest else [kw[0]] + rest
  }

  /** When every keyword names a parameter, nothing is left for `**kwargs`. */
  lemma {:induction false} OtherKeywordsNone(kw: seq<(string, Value)>, params: seq<string>)
    ensures (forall j :: 0 <= j < |kw| ==> kw[j].0 in params) ==> OtherKeywords(kw, params) == []
  {
    if kw != [] && forall j :: 0 <= j < |kw| ==> kw[j].0 in params {
      assert forall j :: 0 <= j < |kw[1..]| ==> kw[1..][j].0 == kw[j + 1].0;
      OtherKeywordsNone(kw[1..], params);
    }
  }

  /** `**kwargs` keeps the order of the call: collecting from `a + b` is collecting from `a`, then from `b`. */
  lemma {:induction false} OtherKeywordsAppend(a: seq<(string, Value)>, b: seq<(string, Value)>, params: seq<string>)
    ensures OtherKeywords(a + b, params) == OtherKeywords(a, params) + OtherKeywords(b, params)
  {
    if a == [] {
      assert a + b == b;
    } else {
      assert (a + b)[0] == a[0];
      assert (a + b)[1..] == a[1..] + b;
      OtherKeywordsAppend(a[1..], b, params);
    }
  }

  function Min(a: int, b: int): int {
    if a <= b then a else b
  }

  // ---- the four ways binding fails ----

  /** More positional arguments than named parameters, and no `*args`. */
  predicate TooManyPositional(sig: Signature, npos: nat) {
    npos > |sig.params| && !sig.varargs
  }

  /** A keyword for a parameter already filled: the bound `self`, or one given by position. */
  predicate GivenTwice(sig: Signature, npos: nat, kw: seq<(string, Value)>) {
    exists j :: 0 <= j < |kw| && (kw[j].0 == "self" || kw[j].0 in sig.params[..Min(npos, |sig.params|)])
  }

  /** A keyword that names no parameter, and no `**kwargs`. */
  predicate UnexpectedKeyword(sig: Signature, kw: seq<(string, Value)>) {
    !sig.varkw && exists j :: 0 <= j < |kw| && kw[j].0 !in sig.params
  }

  /** A named parameter that neither a positional argument nor a keyword fills. */
  predicate MissingArgument(sig: Signature, npos: nat, kw: seq<(string, Value)>) {
    exists i :: npos <= i < |sig.params| && !HasKw(kw, sig.params[i])
  }

  /**
   * Python's binding of `f(*pos, **kw)` to a bound method whose parameters
   * after `self` have no defaults: positional arguments fill the parameters
   * in order, keywords fill the rest by name, and every mismatch is a
   * TypeError.
   */
  function Bind(sig: Signature, pos: seq<Value>, kw: seq<(string, Value)>): (r: Result<Bound>)
    ensures r.Err? ==> r.error == TypeError
    ensures r.Ok? <==> (!TooManyPositional(sig, |pos|) && !GivenTwice(sig, |pos|, kw) &&
                        !UnexpectedKeyword(sig, kw) && !MissingArgument(sig, |pos|, kw))
    ensures r.Ok? ==> |r.value.named| == |sig.params|
    ensures r.Ok? ==> forall i :: 0 <= i < |sig.params| && i < |pos| ==> r.value.named[i] == pos[i]
    ensures r.Ok? ==> forall i :: |pos| <= i < |sig.params| ==>
      HasKw(kw, sig.params[i]) && r.value.named[i] == KwLookup(kw, sig.params[i])
    ensures r.Ok? ==> r.value.extra == (if |pos| > |sig.params| then pos[|sig.params|..] else [])
    ensures r.Ok? ==> r.value.extraKw == OtherKeywords(kw, sig.params)
    ensures r.Ok? ==> sig.varkw || r.value.extraKw == []
  {
    var n := |sig.params|;
    if TooManyPositional(sig, |pos|) || GivenTwice(sig, |pos|, kw) ||
       UnexpectedKeyword(sig, kw) || MissingArgument(sig, |pos|, kw)
    then Err(TypeError)
    else
      OtherKeywordsNone(kw, sig.params);
      Ok(Bound(
        seq(n, i requires 0 <= i < n => if i < |pos| then pos[i] else KwLookup(kw, sig.params[i])),
        if |pos| > n then pos[n..] else [],
        OtherKeywords(kw, sig.params)))
  }

  /** `*args`: the items of a list, the keys of a dict, the characters of a string. */
  function Positional(args: Value): (r: Result<seq<Value>>)
    ensures r.Ok? <==> (args.ListV? || args.DictV? || args.StrV?)
    ensures r.Err? ==> r.error == TypeError
    ensures args.ListV? ==> r == Ok(args.items)
    ensures args.DictV? ==> |r.value| == |args.entries|
    ensures args.StrV? ==> |r.value| == |args.s|
  {
    match args
    case ListV(items) => Ok(items)
    case DictV(entries) => Ok(seq(|entries|, j requires 0 <= j < |entries| => entries[j].0))
    case StrV(s) => Ok(seq(|s|, j requires 0 <= j < |s| => StrV([s[j]])))
    case _ => Err(TypeError)
  }

  /** `**kwargs`: a dict whose keys are all strings. */
  function Keyword(kwargs: Value): (r: Result<seq<(string, Value)>>)
    ensures !kwargs.DictV? ==> r == Err(TypeError)
    ensures kwargs == DictV([]) ==> r == Ok([])
  {
    if kwargs.DictV? then KeywordArgs(kwargs.entries) else Err(TypeError)
  }

  /**
   * The part of `process_command` after validation and before the call:
   * the `args` and `kwargs` defaults, the lookup of the command name in the
   * table, and the binding of the arguments to the chosen method.
   */
  function Prepare(table: map<string, Command>, command: Value): (r: Result<(Command, Bound)>)
    ensures r.Ok? ==> |r.value.1.named| == |SignatureOf(r.value.0).params|
  {
    if !command.DictV? then Err(AttributeError)   // `command.get` of a non-dict
    else
      var e := command.entries;
      PrepareParts(table, DictIndex(e, StrV("command")),
        DictGet(e, StrV("args"), ListV([])), DictGet(e, StrV("kwargs"), DictV([])))
  }

  /**
   * Preparing from what was read out of the envelope: `command['command']`
   * (or its KeyError), `args` and `kwargs`. The name must be hashable and
   * in the table, `args` must unpack with `*` and `kwargs` with `**`.
   */
  function PrepareParts(table: map<string, Command>, name: Result<Value>, args: Value, kwargs: Value): (r: Result<(Command, Bound)>)
    ensures name.Err? ==> r == Err(name.error)
    ensures r.Ok? ==> name.Ok? && name.value.StrV? && name.value.s in table && r.value.0 == table[name.value.s]
    ensures r.Ok? ==> |r.value.1.named| == |SignatureOf(r.value.0).params|
  {
    match name
    case Err(x) => Err(x)
    case Ok(n) =>
      if !Hashable(n) then Err(TypeError)
      else if !(n.StrV? && n.s in table) then Err(KeyError)
      else
        var cmd := table[n.s];
        match Positional(args)
        case Err(x) => Err(x)
        case Ok(pos) =>
          match Keyword(kwargs)
          case Err(x) => Err(x)
          case Ok(kw) =>
            match Bind(SignatureOf(cmd), pos, kw)
            case Err(x) => Err(x)
            case Ok(b) => Ok((cmd, b))
  }

  /** Calling the companion method `cmd` with bound arguments `b`. */
  function DispatchIn(h: Host, ns: Namespace, cmd: Command, b: Bound): Step<Value>
    requires |b.named| == |SignatureOf(cmd).params|
  {
    match cmd
    case Get => ResolveIn(h, ns, b.named[0])
    case Init => InitializeIn(h, ns, b.named[0], b.named[1], b.extra, b.extraKw)
    case Run => CallIn(h, ns, b.named[0], b.extra, b.extraKw)
    case Try => AttemptIn(h, ns, b.named[0], b.extra, b.extraKw)
    case Register => RegisterIn(h, ns, b.named[0], b.named[1])
    case Store => StoreIn(ns, b.named[0], b.named[1])
    case Ping => Step(Ok(StrV("pong")), ns)
  }

  /**
   * What `BaseLiaison.process_command(command)` returns or raises and the
   * namespace it leaves. `valid` is the schema check: an envelope it
   * refuses gives None and changes nothing.
   */
  function ProcessIn(h: Host, valid: Value -> bool, ns: Namespace, command: Value): Step<Value> {
    if !valid(command) then Step(Ok(NoneV), ns)
    else match Prepare(CommandTable(), command)
      case Err(e) => Step(Err(e), ns)
      case Ok((cmd, b)) => DispatchIn(h, ns, cmd, b)
  }

  class BaseLiaison {
    const companion: Companion
    var messages: seq<Value>

    /** Uses the given companion, or makes one, and registers itself in it under `liaison`. */
    constructor (c: Companion?)
      modifies c
      ensures c != null ==> companion == c && companion.namespace == old(c.namespace)[StrV("liaison") := RefV(this)]
      ensures c == null ==> fresh(companion)
      ensures c == null ==> companion.namespace == map[StrV("companion") := RefV(companion), StrV("liaison") := RefV(this)]
      ensures messages == []
    {
      var comp: Companion;
      if c == null {
        comp := new Companion();
      } else {
        comp := c;
      }
      companion := comp;
      messages := [];
      new;
      comp.namespace := comp.namespace[StrV("liaison") := RefV(this)];
    }

    /** `BaseLiaison.process_command`: validate, default, look up, bind, call. */
    method ProcessCommand(h: Host, valid: Value -> bool, command: Value) returns (r: Result<Value>)
      modifies companion
      ensures r == ProcessIn(h, valid, old(companion.namespace), command).res
      ensures companion.namespace == ProcessIn(h, valid, old(companion.namespace), command).ns
      ensures !valid(command) ==> r == Ok(NoneV) && companion.namespace == old(companion.namespace)
    {
      if !valid(command) {
        return Ok(NoneV);
      }
      var prepared := Prepare(companion.commands, command);
      if prepared.Err? {
        return Err(prepared.error);
      }
      var (cmd, b) := prepared.value;
      match cmd
      case Get => r := companion.Resolve(h, b.named[0]);
      case Init => r := companion.Initialize(h, b.named[0], b.named[1], b.extra, b.extraKw);
      case Run => r := companion.Call(h, b.named[0], b.extra, b.extraKw);
      case Try => r := companion.Attempt(h, b.named[0], b.extra, b.extraKw);
      case Register => r := companion.Register(h, b.named[0], b.named[1]);
      case Store => r := companion.Store(b.named[0], b.named[1]);
      case Ping => r := Ok(StrV(companion.Ping()));
    }
  }
}
