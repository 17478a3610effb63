/**
 * What the companion's operations promise, stated over the functions of
 * module Companions: the import grammar and the cut at the first colon,
 * the two routes of resolve, what actualize leaves alone, what call hands
 * to the callee, the record attempt returns, and what each namespace writer
 * changes and leaves alone.
 */
module CompanionProperties {
  import opened Values
  import opened Grammar
  import opened Companions

  // ---- resolve_import ----

  /** A getattr walk fails only with AttributeError. */
  lemma {:induction false} WalkError(v: Value, names: seq<string>)
    ensures Walk(v, names).Err? ==> Walk(v, names).error == AttributeError
    decreases |names|
  {
    if names != [] {
      match GetAttr(v, names[0])
      case Err(e) =>
      case Ok(u) => WalkError(u, names[1..]);
    }
  }

  /** resolve_import raises AssertionError exactly for the strings outside the import grammar. */
  lemma ImportRejects(h: Host, t: string)
    ensures ImportOf(h, StrV(t)) == Err(AssertionError) <==> !ImportString(t)
  {
    ImportRegexAgrees(t);
    if ImportString(t) {
      var (m, attrs) := ImportParts(t);
      if m in h.modules {
        WalkError(h.modules[m], attrs);
      }
    }
  }

  /** Identifiers joined by dots form a dotted path whose pieces are those identifiers. */
  lemma IdentsJoin(ps: seq<string>)
    requires |ps| >= 1 && forall j :: 0 <= j < |ps| ==> IsIdent(ps[j])
    ensures Split(Join(ps, '.'), '.') == ps && DottedPath(Join(ps, '.'))
  {
    forall j | 0 <= j < |ps| ensures '.' !in ps[j] {
      IdentIsDottedPath(ps[j]);
    }
    JoinSplit(ps, '.');
  }

  /** `m:a1.….an` is cut after `m`, and the attributes are `a1`, …, `an`. */
  lemma QualifiedParts(m: string, attrs: seq<string>)
    requires ':' !in m
    requires |attrs| >= 1 && forall j :: 0 <= j < |attrs| ==> IsIdent(attrs[j])
    ensures ':' in m + ":" + Join(attrs, '.')
    ensures IndexOf(m + ":" + Join(attrs, '.'), ':') == |m|
    ensures ImportParts(m + ":" + Join(attrs, '.')) == (m, attrs)
    ensures DottedPath(Join(attrs, '.'))
  {
    var a := Join(attrs, '.');
    IdentsJoin(attrs);
    assert m + ":" + a == m + [':'] + a;
    IndexOfJoin(m, ':', a);
  }

  /**
   * A target `m:a1.a2…an` imports module `m` and then takes the attributes
   * a1, …, an from it, left to right.
   */
  lemma ImportQualified(h: Host, m: string, attrs: seq<string>)
    requires DottedPath(m)
    requires |attrs| >= 1 && forall j :: 0 <= j < |attrs| ==> IsIdent(attrs[j])
    ensures ImportOf(h, StrV(m + ":" + Join(attrs, '.'))) ==
      if m in h.modules then Walk(h.modules[m], attrs) else Err(ModuleNotFoundError)
  {
    QualifiedMatches(m, attrs);
    QualifiedParts(m, attrs);
  }

  /** `m:a1.….an` passes the import grammar. */
  lemma QualifiedMatches(m: string, attrs: seq<string>)
    requires DottedPath(m)
    requires |attrs| >= 1 && forall j :: 0 <= j < |attrs| ==> IsIdent(attrs[j])
    ensures ':' !in m
    ensures FullMatchImport(m + ":" + Join(attrs, '.'))
  {
    DottedPathChars(m);
    assert ':' !in m by {
      assert forall k :: 0 <= k < |m| ==> m[k] != ':';
    }
    var t := m + ":" + Join(attrs, '.');
    QualifiedParts(m, attrs);
    assert t[..|m|] == m && t[|m| + 1..] == Join(attrs, '.');
    assert ImportString(t);
    ImportRegexAgrees(t);
  }

  /** A target without a colon imports the whole target as a module and walks no attribute. */
  lemma ImportModuleOnly(h: Host, m: string)
    requires DottedPath(m)
    ensures ImportOf(h, StrV(m)) == if m in h.modules then Ok(h.modules[m]) else Err(ModuleNotFoundError)
  {
    DottedPathChars(m);
    assert ':' !in m by {
      assert forall k :: 0 <= k < |m| ==> m[k] != ':';
    }
    ImportRegexAgrees(m);
  }

  /** A second colon is refused: the target is cut only at the first one, and what follows must be a dotted path. */
  lemma ImportSecondColon(h: Host, p: string, q: string)
    requires ':' !in p && ':' in q
    ensures ImportOf(h, StrV(p + ":" + q)) == Err(AssertionError)
  {
    var t := p + ":" + q;
    assert t == p + [':'] + q;
    IndexOfJoin(p, ':', q);
    if DottedPath(q) {
      DottedPathChars(q);
    }
    ImportRejects(h, t);
  }

  // ---- resolve and actualize ----

  /**
   * On the namespace route a target `n.a1…ak` of Python names evaluates to
   * the attribute walk from the value stored under `n`; the namespace gains
   * `__builtins__` if it lacked it.
   */
  lemma ResolveNamespacePath(h: Host, ns: Namespace, t: string, n: string, attrs: seq<string>)
    requires Split(t, '.') == [n] + attrs
    requires PyName(n) && StrV(n) in ns
    requires forall j :: 0 <= j < |attrs| ==> PyName(attrs[j])
    ensures ResolveIn(h, ns, StrV(t)) == Step(Walk(ns[StrV(n)], attrs), WithBuiltins(h, ns))
  {
    var ps := [n] + attrs;
    assert ps[1..] == attrs;
    assert !ConstantName(n);
    assert forall j :: 1 <= j < |ps| ==> PyName(ps[j]) by {
      forall j | 1 <= j < |ps| ensures PyName(ps[j]) {
        assert ps[j] == attrs[j - 1];
      }
    }
  }

  /** A single stored Python name resolves to its value. */
  lemma ResolveName(h: Host, ns: Namespace, n: string)
    requires PyName(n) && StrV(n) in ns
    ensures ResolveIn(h, ns, StrV(n)).res == Ok(ns[StrV(n)])
  {
    IdentIsDottedPath(n);
    assert [n] + [] == [n];
    ResolveNamespacePath(h, ns, n, n, []);
  }

  /**
   * On the import route (the piece before the first `.` is not a key) a
   * dotted path is imported as a module and the namespace is left alone.
   */
  lemma ResolveImportRoute(h: Host, ns: Namespace, t: string)
    requires DottedPath(t) && StrV(HeadOf(t)) !in ns
    ensures ResolveIn(h, ns, StrV(t)) ==
      Step(if t in h.modules then Ok(h.modules[t]) else Err(ModuleNotFoundError), ns)
  {
    ImportModuleOnly(h, t);
  }

  /**
   * actualize resolves exactly the strings `$` + dotted path, with the sigil
   * removed, and returns everything else as it is: other strings, numbers,
   * and lists and dicts whatever they hold.
   */
  lemma ActualizeRoutes(h: Host, ns: Namespace, arg: Value)
    ensures arg.StrV? && ResolveString(arg.s) ==> ActualizeIn(h, ns, arg) == ResolveIn(h, ns, StrV(arg.s[1..]))
    ensures !(arg.StrV? && ResolveString(arg.s)) ==> ActualizeIn(h, ns, arg) == Step(Ok(arg), ns)
  {
    if arg.StrV? {
      ResolveRegexAgrees(arg.s);
    }
  }

  // ---- store ----

  /**
   * After `store(n, v)` the call returns `n`, and both `resolve(n)` and
   * `actualize("$" + n)` give `v` back.
   */
  lemma StoreThenResolve(h: Host, ns: Namespace, n: string, v: Value)
    requires PyName(n)
    ensures StoreIn(ns, StrV(n), v) == Step(Ok(StrV(n)), ns[StrV(n) := v])
    ensures ResolveIn(h, ns[StrV(n) := v], StrV(n)).res == Ok(v)
    ensures ActualizeIn(h, ns[StrV(n) := v], StrV("$" + n)).res == Ok(v)
  {
    ResolveName(h, ns[StrV(n) := v], n);
    IdentIsDottedPath(n);
    ResolveRegexAgrees("$" + n);
    assert ("$" + n)[1..] == n;
  }

  /** A stored name that is a Python keyword cannot be read back: eval refuses it. */
  lemma StoredKeywordUnreadable(h: Host, ns: Namespace, n: string, v: Value)
    requires IsIdent(n) && n in Keywords && !ConstantName(n)
    ensures ResolveIn(h, ns[StrV(n) := v], StrV(n)).res == Err(SyntaxError)
  {
    IdentIsDottedPath(n);
  }

  // ---- what call does to the namespace ----

  /** The namespace is unchanged, or has only gained the `__builtins__` entry that eval inserts. */
  predicate Settled(h: Host, ns: Namespace, ns': Namespace) {
    ns' == ns || ns' == WithBuiltins(h, ns)
  }

  /** Every key other than `__builtins__` is kept with its value, and no other key is added. */
  lemma SettledFrame(h: Host, ns: Namespace, ns': Namespace)
    requires Settled(h, ns, ns')
    ensures ns.Keys <= ns'.Keys <= ns.Keys + {BuiltinsKey}
    ensures forall k :: k in ns ==> ns'[k] == ns[k]
  {
  }

  lemma SettledTrans(h: Host, ns: Namespace, ns1: Namespace, ns2: Namespace)
    requires Settled(h, ns, ns1) && Settled(h, ns1, ns2)
    ensures Settled(h, ns, ns2)
  {
  }

  lemma {:induction false} ActualizeArgsSettles(h: Host, ns: Namespace, args: seq<Value>)
    ensures Settled(h, ns, ActualizeArgs(h, ns, args).ns)
    decreases |args|
  {
    if args != [] {
      var a := ActualizeIn(h, ns, args[0]);
      if a.res.Ok? {
        ActualizeArgsSettles(h, a.ns, args[1..]);
        SettledTrans(h, ns, a.ns, ActualizeArgs(h, a.ns, args[1..]).ns);
      }
    }
  }

  lemma {:induction false} ActualizeKwargsSettles(h: Host, ns: Namespace, kwargs: seq<(string, Value)>, acc: seq<(Value, Value)>)
    ensures Settled(h, ns, ActualizeKwargs(h, ns, kwargs, acc).ns)
    decreases |kwargs|
  {
    if kwargs != [] {
      var k := ActualizeIn(h, ns, StrV(kwargs[0].0));
      if k.res.Ok? {
        var v := ActualizeIn(h, k.ns, kwargs[0].1);
        SettledTrans(h, ns, k.ns, v.ns);
        if v.res.Ok? && Hashable(k.res.value) {
          var acc' := DictInsert(acc, k.res.value, v.res.value);
          ActualizeKwargsSettles(h, v.ns, kwargs[1..], acc');
          SettledTrans(h, ns, v.ns, ActualizeKwargs(h, v.ns, kwargs[1..], acc').ns);
        }
      }
    }
  }

  /** call never changes the namespace, except for the `__builtins__` entry eval may add. */
  lemma CallSettles(h: Host, ns: Namespace, fcn: Value, args: seq<Value>, kwargs: seq<(string, Value)>)
    ensures Settled(h, ns, CallIn(h, ns, fcn, args, kwargs).ns)
  {
    var f := ResolveIn(h, ns, fcn);
    if f.res.Ok? {
      ActualizeArgsSettles(h, f.ns, args);
      var a := ActualizeArgs(h, f.ns, args);
      SettledTrans(h, ns, f.ns, a.ns);
      if a.res.Ok? {
        ActualizeKwargsSettles(h, a.ns, kwargs, []);
        SettledTrans(h, ns, a.ns, ActualizeKwargs(h, a.ns, kwargs, []).ns);
      }
    }
  }

  // ---- what call hands to the callee ----

  /**
   * A `$` reference whose head is `__builtins__`: the one reference whose
   * route (namespace or import) depends on whether eval has run yet.
   */
  predicate ReadsBuiltins(arg: Value) {
    arg.StrV? && FullMatchResolve(arg.s) && StrV(HeadOf(arg.s[1..])) == BuiltinsKey
  }

  predicate NoBuiltinsArgs(args: seq<Value>) {
    forall i :: 0 <= i < |args| ==> !ReadsBuiltins(args[i])
  }

  predicate NoBuiltinsItems(kwargs: seq<(string, Value)>) {
    forall i :: 0 <= i < |kwargs| ==> !ReadsBuiltins(StrV(kwargs[i].0)) && !ReadsBuiltins(kwargs[i].1)
  }

  /**
   * Once eval has only added `__builtins__`, every argument that does not
   * read it actualizes to what it did before, and the namespace stays settled.
   */
  lemma ActualizeStable(h: Host, ns0: Namespace, ns: Namespace, arg: Value)
    requires Settled(h, ns0, ns) && !ReadsBuiltins(arg)
    ensures ActualizeIn(h, ns, arg).res == ActualizeIn(h, ns0, arg).res
    ensures Settled(h, ns0, ActualizeIn(h, ns, arg).ns)
  {
    if arg.StrV? && FullMatchResolve(arg.s) {
      var head := StrV(HeadOf(arg.s[1..]));
      assert head in ns <==> head in ns0;
      assert WithBuiltins(h, ns) == WithBuiltins(h, ns0);
    }
  }

  /**
   * The positional comprehension, started from any namespace eval has
   * settled from `ns0`, actualizes each argument once, in order, as it
   * would against `ns0`, and stops at the first one that raises.
   */
  lemma {:induction false} ActualizeArgsPointwise(h: Host, ns0: Namespace, ns: Namespace, args: seq<Value>)
    requires Settled(h, ns0, ns) && NoBuiltinsArgs(args)
    ensures Settled(h, ns0, ActualizeArgs(h, ns, args).ns)
    ensures ActualizeArgs(h, ns, args).res.Ok? <==>
      forall i :: 0 <= i < |args| ==> ActualizeIn(h, ns0, args[i]).res.Ok?
    ensures ActualizeArgs(h, ns, args).res.Ok? ==>
      |ActualizeArgs(h, ns, args).res.value| == |args| &&
      forall i :: 0 <= i < |args| ==> ActualizeArgs(h, ns, args).res.value[i] == ActualizeIn(h, ns0, args[i]).res.value
    ensures ActualizeArgs(h, ns, args).res.Err? ==>
      exists i :: 0 <= i < |args| && ActualizeIn(h, ns0, args[i]).res == Err(ActualizeArgs(h, ns, args).res.error) &&
        forall j :: 0 <= j < i ==> ActualizeIn(h, ns0, args[j]).res.Ok?
    decreases |args|
  {
    if args != [] {
      var a := ActualizeIn(h, ns, args[0]);
      ActualizeStable(h, ns0, ns, args[0]);
      if a.res.Ok? {
        var tail := args[1..];
        assert forall i :: 1 <= i < |args| ==> args[i] == tail[i - 1];
        ActualizeArgsPointwise(h, ns0, a.ns, tail);
        var r := ActualizeArgs(h, a.ns, tail);
        if r.res.Err? {
          var i :| 0 <= i < |tail| && ActualizeIn(h, ns0, tail[i]).res == Err(r.res.error) &&
            forall j :: 0 <= j < i ==> ActualizeIn(h, ns0, tail[j]).res.Ok?;
          FirstFailureShift(h, ns0, args, i, r.res.error);
        }
      }
    }
  }

  /** A first failure at `i` in the tail is a first failure at `i + 1` after a head that succeeds. */
  lemma FirstFailureShift(h: Host, ns0: Namespace, args: seq<Value>, i: nat, e: ErrorKind)
    requires args != [] && ActualizeIn(h, ns0, args[0]).res.Ok?
    requires i < |args| - 1 && ActualizeIn(h, ns0, args[1..][i]).res == Err(e)
    requires forall j :: 0 <= j < i ==> ActualizeIn(h, ns0, args[1..][j]).res.Ok?
    ensures ActualizeIn(h, ns0, args[i + 1]).res == Err(e)
    ensures forall j :: 0 <= j < i + 1 ==> ActualizeIn(h, ns0, args[j]).res.Ok?
  {
    forall j | 0 <= j < i + 1 ensures ActualizeIn(h, ns0, args[j]).res.Ok? {
      if j > 0 { assert args[j] == args[1..][j - 1]; }
    }
  }

  /** One item of the keyword comprehension against `ns`: the key, then the value, then the hash check of the insertion. */
  function ActualizeItem(h: Host, ns: Namespace, item: (string, Value)): Result<(Value, Value)> {
    var k := ActualizeIn(h, ns, StrV(item.0)).res;
    if k.Err? then Err(k.error)
    else
      var v := ActualizeIn(h, ns, item.1).res;
      if v.Err? then Err(v.error)
      else if !Hashable(k.value) then Err(TypeError)
      else Ok((k.value, v.value))
  }

  /** The dict built from the actualized items: each inserted into `acc` in turn, as `d[k] = v` does. */
  function InsertItems(h: Host, ns: Namespace, kwargs: seq<(string, Value)>, acc: seq<(Value, Value)>)
    : Result<seq<(Value, Value)>>
    decreases |kwargs|
  {
    if kwargs == [] then Ok(acc)
    else match ActualizeItem(h, ns, kwargs[0])
      case Err(e) => Err(e)
      case Ok(kv) => InsertItems(h, ns, kwargs[1..], DictInsert(acc, kv.0, kv.1))
  }

  /**
   * The keyword comprehension, started from any namespace eval has settled
   * from `ns0`, builds the dict of the items actualized against `ns0`.
   */
  lemma {:induction false} ActualizeKwargsPointwise(h: Host, ns0: Namespace, ns: Namespace,
      kwargs: seq<(string, Value)>, acc: seq<(Value, Value)>)
    requires Settled(h, ns0, ns) && NoBuiltinsItems(kwargs)
    ensures ActualizeKwargs(h, ns, kwargs, acc).res == InsertItems(h, ns0, kwargs, acc)
    ensures Settled(h, ns0, ActualizeKwargs(h, ns, kwargs, acc).ns)
    decreases |kwargs|
  {
    if kwargs != [] {
      var k := ActualizeIn(h, ns, StrV(kwargs[0].0));
      ActualizeStable(h, ns0, ns, StrV(kwargs[0].0));
      if k.res.Ok? {
        var v := ActualizeIn(h, k.ns, kwargs[0].1);
        ActualizeStable(h, ns0, k.ns, kwargs[0].1);
        if v.res.Ok? && Hashable(k.res.value) {
          assert forall i :: 1 <= i < |kwargs| ==> kwargs[i] == kwargs[1..][i - 1];
          ActualizeKwargsPointwise(h, ns0, v.ns, kwargs[1..], DictInsert(acc, k.res.value, v.res.value));
        }
      }
    }
  }

  /** The dict is built exactly when every item actualizes; otherwise the first failing item's exception is raised. */
  lemma {:induction false} InsertItemsPointwise(h: Host, ns: Namespace, kwargs: seq<(string, Value)>, acc: seq<(Value, Value)>)
    ensures InsertItems(h, ns, kwargs, acc).Ok? <==> forall i :: 0 <= i < |kwargs| ==> ActualizeItem(h, ns, kwargs[i]).Ok?
    ensures InsertItems(h, ns, kwargs, acc).Err? ==>
      exists i :: 0 <= i < |kwargs| && ActualizeItem(h, ns, kwargs[i]) == Err(InsertItems(h, ns, kwargs, acc).error) &&
        forall j :: 0 <= j < i ==> ActualizeItem(h, ns, kwargs[j]).Ok?
    decreases |kwargs|
  {
    if kwargs != [] {
      var tail := kwargs[1..];
      assert forall i :: 1 <= i < |kwargs| ==> kwargs[i] == tail[i - 1];
      match ActualizeItem(h, ns, kwargs[0])
      case Err(e) =>
      case Ok(kv) =>
        var acc' := DictInsert(acc, kv.0, kv.1);
        InsertItemsPointwise(h, ns, tail, acc');
        if InsertItems(h, ns, tail, acc').Err? {
          var i :| 0 <= i < |tail| && ActualizeItem(h, ns, tail[i]) == Err(InsertItems(h, ns, tail, acc').error) &&
            forall j :: 0 <= j < i ==> ActualizeItem(h, ns, tail[j]).Ok?;
          assert ActualizeItem(h, ns, kwargs[i + 1]) == Err(InsertItems(h, ns, kwargs, acc).error);
          assert forall j :: 0 <= j < i + 1 ==> ActualizeItem(h, ns, kwargs[j]).Ok? by {
            forall j | 0 <= j < i + 1 ensures ActualizeItem(h, ns, kwargs[j]).Ok? {
              if j > 0 { assert kwargs[j] == tail[j - 1]; }
            }
          }
        }
    }
  }

  /** Keyword names that are not `$` references: the comprehension keeps them as they are. */
  predicate PlainKeys(kwargs: seq<(string, Value)>) {
    forall i :: 0 <= i < |kwargs| ==> !FullMatchResolve(kwargs[i].0)
  }

  /** The items of a Python dict have distinct keys. */
  predicate DistinctKeys(kwargs: seq<(string, Value)>) {
    forall i, j :: 0 <= i < j < |kwargs| ==> kwargs[i].0 != kwargs[j].0
  }

  /**
   * With distinct plain names, each insertion appends: the dict is `acc`
   * followed by one entry per item, in order, each value actualized once.
   */
  lemma {:induction false} InsertItemsPlain(h: Host, ns: Namespace, kwargs: seq<(string, Value)>, acc: seq<(Value, Value)>)
    requires PlainKeys(kwargs) && DistinctKeys(kwargs)
    requires forall i :: 0 <= i < |kwargs| ==> !HasKey(acc, StrV(kwargs[i].0))
    requires forall i :: 0 <= i < |kwargs| ==> ActualizeIn(h, ns, kwargs[i].1).res.Ok?
    ensures InsertItems(h, ns, kwargs, acc).Ok?
    ensures var d := InsertItems(h, ns, kwargs, acc).value;
      |d| == |acc| + |kwargs| && d[..|acc|] == acc &&
      forall i :: 0 <= i < |kwargs| ==> d[|acc| + i] == (StrV(kwargs[i].0), ActualizeIn(h, ns, kwargs[i].1).res.value)
    decreases |kwargs|
  {
    if kwargs != [] {
      var k0 := StrV(kwargs[0].0);
      var v := ActualizeIn(h, ns, kwargs[0].1).res.value;
      PlainItemAppends(h, ns, kwargs[0], acc);
      var tail := kwargs[1..];
      var acc' := acc + [(k0, v)];
      assert forall i :: 1 <= i < |kwargs| ==> kwargs[i] == tail[i - 1];
      FreshAfterAppend(acc, (k0, v), tail);
      InsertItemsPlain(h, ns, tail, acc');
      var d := InsertItems(h, ns, tail, acc').value;
      EntriesAfterAppend(acc, (k0, v), d);
      forall i | 1 <= i < |kwargs|
        ensures d[|acc| + i] == (StrV(kwargs[i].0), ActualizeIn(h, ns, kwargs[i].1).res.value)
      {
        assert d[|acc'| + (i - 1)] == (StrV(tail[i - 1].0), ActualizeIn(h, ns, tail[i - 1].1).res.value);
      }
    }
  }

  /** Keys that are new to `acc` and differ from `e`'s key are new to `acc + [e]`. */
  lemma FreshAfterAppend(acc: seq<(Value, Value)>, e: (Value, Value), tail: seq<(string, Value)>)
    requires forall i :: 0 <= i < |tail| ==> !HasKey(acc, StrV(tail[i].0)) && StrV(tail[i].0) != e.0
    ensures forall i :: 0 <= i < |tail| ==> !HasKey(acc + [e], StrV(tail[i].0))
  {
    forall i | 0 <= i < |tail| ensures !HasKey(acc + [e], StrV(tail[i].0)) {
      LookupAppend(acc, [e], StrV(tail[i].0));
    }
  }

  /** A dict that starts with `acc + [e]` starts with `acc`, then `e`. */
  lemma EntriesAfterAppend(acc: seq<(Value, Value)>, e: (Value, Value), d: seq<(Value, Value)>)
    requires |d| >= |acc| + 1 && d[..|acc| + 1] == acc + [e]
    ensures d[..|acc|] == acc && d[|acc|] == e
  {
    assert d[..|acc| + 1][..|acc|] == d[..|acc|];
    assert d[..|acc| + 1][|acc|] == d[|acc|];
  }

  /** One plain, new item whose value actualizes: it is appended as it stands. */
  lemma PlainItemAppends(h: Host, ns: Namespace, item: (string, Value), acc: seq<(Value, Value)>)
    requires !FullMatchResolve(item.0) && !HasKey(acc, StrV(item.0)) && ActualizeIn(h, ns, item.1).res.Ok?
    ensures var v := ActualizeIn(h, ns, item.1).res.value;
      ActualizeItem(h, ns, item) == Ok((StrV(item.0), v)) &&
      DictInsert(acc, StrV(item.0), v) == acc + [(StrV(item.0), v)]
  {
    assert ActualizeIn(h, ns, StrV(item.0)) == Step(Ok(StrV(item.0)), ns);
  }

  /** `**d` succeeds exactly when every key is a string, and passes the items in order. */
  lemma {:induction false} KeywordArgsStrings(d: seq<(Value, Value)>)
    ensures KeywordArgs(d).Ok? <==> forall i :: 0 <= i < |d| ==> d[i].0.StrV?
    ensures KeywordArgs(d).Err? ==> KeywordArgs(d).error == TypeError
    ensures KeywordArgs(d).Ok? ==> |KeywordArgs(d).value| == |d|
    ensures KeywordArgs(d).Ok? ==> forall i :: 0 <= i < |d| ==> KeywordArgs(d).value[i] == (d[i].0.s, d[i].1)
    decreases |d|
  {
    if d != [] {
      KeywordArgsStrings(d[1..]);
      assert forall i :: 1 <= i < |d| ==> d[i] == d[1..][i - 1];
    }
  }

  /**
   * From any namespace: when the callee resolves, every positional argument
   * actualizes, the keyword dict is built and its keys are strings, call
   * hands the callee the positional arguments actualized against that
   * namespace, in order, and the dict's items, returns what the callee
   * returns, and leaves the namespace settled.
   */
  lemma CallPointwise(h: Host, ns: Namespace, fcn: Value, args: seq<Value>, kwargs: seq<(string, Value)>)
    requires NoBuiltinsArgs(args) && NoBuiltinsItems(kwargs)
    requires ResolveIn(h, ns, fcn).res.Ok?
    requires forall i :: 0 <= i < |args| ==> ActualizeIn(h, ns, args[i]).res.Ok?
    requires InsertItems(h, ns, kwargs, []).Ok? && KeywordArgs(InsertItems(h, ns, kwargs, []).value).Ok?
    ensures CallIn(h, ns, fcn, args, kwargs).res ==
      h.invoke(ResolveIn(h, ns, fcn).res.value,
        seq(|args|, i requires 0 <= i < |args| => ActualizeIn(h, ns, args[i]).res.value),
        KeywordArgs(InsertItems(h, ns, kwargs, []).value).value)
    ensures Settled(h, ns, CallIn(h, ns, fcn, args, kwargs).ns)
  {
    var f := ResolveIn(h, ns, fcn);
    ActualizeArgsPointwise(h, ns, f.ns, args);
    var a := ActualizeArgs(h, f.ns, args);
    assert a.res.value == seq(|args|, i requires 0 <= i < |args| => ActualizeIn(h, ns, args[i]).res.value);
    ActualizeKwargsPointwise(h, ns, a.ns, kwargs, []);
    CallSettles(h, ns, fcn, args, kwargs);
  }

  /**
   * With distinct plain keyword names the callee receives each name with
   * its actualized value, in order.
   */
  lemma CallPlainKeywords(h: Host, ns: Namespace, fcn: Value, args: seq<Value>, kwargs: seq<(string, Value)>)
    requires NoBuiltinsArgs(args) && PlainKeys(kwargs) && DistinctKeys(kwargs)
    requires forall i :: 0 <= i < |kwargs| ==> !ReadsBuiltins(kwargs[i].1)
    requires ResolveIn(h, ns, fcn).res.Ok?
    requires forall i :: 0 <= i < |args| ==> ActualizeIn(h, ns, args[i]).res.Ok?
    requires forall i :: 0 <= i < |kwargs| ==> ActualizeIn(h, ns, kwargs[i].1).res.Ok?
    ensures CallIn(h, ns, fcn, args, kwargs).res ==
      h.invoke(ResolveIn(h, ns, fcn).res.value,
        seq(|args|, i requires 0 <= i < |args| => ActualizeIn(h, ns, args[i]).res.value),
        seq(|kwargs|, i requires 0 <= i < |kwargs| => (kwargs[i].0, ActualizeIn(h, ns, kwargs[i].1).res.value)))
  {
    PlainKeywordItems(h, ns, kwargs);
    assert NoBuiltinsItems(kwargs);
    CallPointwise(h, ns, fcn, args, kwargs);
  }

  /** With distinct plain names, `**` of the built dict gives each name with its actualized value. */
  lemma PlainKeywordItems(h: Host, ns: Namespace, kwargs: seq<(string, Value)>)
    requires PlainKeys(kwargs) && DistinctKeys(kwargs)
    requires forall i :: 0 <= i < |kwargs| ==> ActualizeIn(h, ns, kwargs[i].1).res.Ok?
    ensures InsertItems(h, ns, kwargs, []).Ok?
    ensures KeywordArgs(InsertItems(h, ns, kwargs, []).value) ==
      Ok(seq(|kwargs|, i requires 0 <= i < |kwargs| => (kwargs[i].0, ActualizeIn(h, ns, kwargs[i].1).res.value)))
  {
    InsertItemsPlain(h, ns, kwargs, []);
    var d := InsertItems(h, ns, kwargs, []).value;
    var kw := seq(|kwargs|, i requires 0 <= i < |kwargs| => (kwargs[i].0, ActualizeIn(h, ns, kwargs[i].1).res.value));
    assert forall i :: 0 <= i < |kwargs| ==> d[0 + i] == (StrV(kw[i].0), kw[i].1);
    KeywordArgsOf(d, kw);
  }

  /** `**d` of string-keyed entries passes exactly those names and values, in order. */
  lemma KeywordArgsOf(d: seq<(Value, Value)>, kw: seq<(string, Value)>)
    requires |d| == |kw| && forall i :: 0 <= i < |d| ==> d[i] == (StrV(kw[i].0), kw[i].1)
    ensures KeywordArgs(d) == Ok(kw)
  {
    KeywordArgsStrings(d);
    assert KeywordArgs(d).value == kw;
  }

  // ---- attempt ----

  /** The two entries of the record attempt returns. */
  lemma OutcomeFields(success: bool, result: Value)
    ensures Outcome(success, result).DictV?
    ensures HasKey(Outcome(success, result).entries, StrV("success")) &&
      Lookup(Outcome(success, result).entries, StrV("success")) == BoolV(success)
    ensures HasKey(Outcome(success, result).entries, StrV("result")) &&
      Lookup(Outcome(success, result).entries, StrV("result")) == result
  {
    var e := Outcome(success, result).entries;
    assert e[0].0 == StrV("success");
    assert e[1].0 == StrV("result");
    HasKeyTail(e, StrV("result"));
    assert e[1..][0].0 == StrV("result");
  }

  /**
   * attempt lets no Exception through: its record says whether the call
   * succeeded and holds the call's result or the exception it raised. Only
   * a BaseException outside Exception propagates.
   */
  lemma AttemptRecord(h: Host, ns: Namespace, fcn: Value, args: seq<Value>, kwargs: seq<(string, Value)>)
    ensures AttemptIn(h, ns, fcn, args, kwargs).ns == CallIn(h, ns, fcn, args, kwargs).ns
    ensures AttemptIn(h, ns, fcn, args, kwargs).res.Err? <==>
      CallIn(h, ns, fcn, args, kwargs).res.Err? && !IsException(CallIn(h, ns, fcn, args, kwargs).res.error)
    ensures AttemptIn(h, ns, fcn, args, kwargs).res.Err? ==> !IsException(AttemptIn(h, ns, fcn, args, kwargs).res.error)
    ensures var a := AttemptIn(h, ns, fcn, args, kwargs).res; var c := CallIn(h, ns, fcn, args, kwargs).res;
      a.Ok? ==>
        a.value.DictV? &&
        HasKey(a.value.entries, StrV("success")) && Lookup(a.value.entries, StrV("success")) == BoolV(c.Ok?) &&
        HasKey(a.value.entries, StrV("result")) &&
        Lookup(a.value.entries, StrV("result")) == (if c.Ok? then c.value else ExcV(c.error))
  {
    var c := CallIn(h, ns, fcn, args, kwargs).res;
    if c.Ok? {
      OutcomeFields(true, c.value);
    } else {
      OutcomeFields(false, ExcV(c.error));
    }
  }

  // ---- initialize ----

  /**
   * initialize returns `name` and stores under it what the call returned;
   * a keyword naming `self` or `fcn` is refused before the call; when the
   * call raises, or the name cannot be a key, the namespace keeps every
   * entry (eval may only have added `__builtins__`).
   */
  lemma InitializeEffect(h: Host, ns: Namespace, name: Value, cls: Value, args: seq<Value>, kwargs: seq<(string, Value)>)
    ensures var i := InitializeIn(h, ns, name, cls, args, kwargs); var c := CallIn(h, ns, cls, args, kwargs);
      (i.res.Ok? <==> !RebindsCallParameter(kwargs) && c.res.Ok? && Hashable(name)) &&
      (RebindsCallParameter(kwargs) ==> i == Step(Err(TypeError), ns)) &&
      (i.res.Ok? ==> i.res.value == name && i.ns == c.ns[name := c.res.value] && Settled(h, ns, c.ns)) &&
      (i.res.Err? && !RebindsCallParameter(kwargs) ==>
        i.res == (if c.res.Err? then c.res else Err(TypeError)) && Settled(h, ns, i.ns))
  {
    CallSettles(h, ns, cls, args, kwargs);
  }

  /** After a successful `initialize(n, …)`, `resolve(n)` gives the constructed value. */
  lemma InitializeThenResolve(h: Host, ns: Namespace, n: string, cls: Value, args: seq<Value>, kwargs: seq<(string, Value)>)
    requires PyName(n) && InitializeIn(h, ns, StrV(n), cls, args, kwargs).res.Ok?
    ensures ResolveIn(h, InitializeIn(h, ns, StrV(n), cls, args, kwargs).ns, StrV(n)).res ==
      Ok(CallIn(h, ns, cls, args, kwargs).res.value)
  {
    ResolveName(h, InitializeIn(h, ns, StrV(n), cls, args, kwargs).ns, n);
  }

  // ---- register ----

  /**
   * register imports the target and stores it under the given name, or
   * under the element's `__name__` when the name is None; every failure
   * (the import, the inference, an unhashable name) leaves the namespace
   * exactly as it was.
   */
  lemma RegisterEffect(h: Host, ns: Namespace, name: Value, target: Value)
    ensures var r := RegisterIn(h, ns, name, target); var e := ImportOf(h, target);
      (r.res.Err? ==> r.ns == ns) &&
      (r.res.Ok? ==> e.Ok? && r.ns == ns[r.res.value := e.value]) &&
      (!name.NoneV? ==> (r.res.Ok? <==> e.Ok? && Hashable(name)) && (r.res.Ok? ==> r.res.value == name)) &&
      (name.NoneV? && e.Ok? ==>
        (r.res.Ok? <==> e.value.ObjV? && "__name__" in e.value.attrs && Hashable(e.value.attrs["__name__"])) &&
        (r.res.Ok? ==> r.res.value == e.value.attrs["__name__"])) &&
      (name.NoneV? && e.Ok? && !(e.value.ObjV? && "__name__" in e.value.attrs) ==> r.res == Err(AttributeError))
  {
  }

  /** After `register(n, target)` succeeds, `resolve(n)` gives the imported element. */
  lemma RegisterThenResolve(h: Host, ns: Namespace, n: string, target: Value)
    requires PyName(n) && RegisterIn(h, ns, StrV(n), target).res.Ok?
    ensures ResolveIn(h, RegisterIn(h, ns, StrV(n), target).ns, StrV(n)).res == ImportOf(h, target)
  {
    ResolveName(h, RegisterIn(h, ns, StrV(n), target).ns, n);
  }

  /**
   * As written, the inference never succeeds: `in` on an object raises
   * TypeError, and a string, list or dict that holds "__name__" has no
   * `__name__` attribute.
   */
  lemma InferNameAsWrittenFails(element: Value)
    ensures InferNameAsWritten(element).Err?
    ensures element.ObjV? ==> InferNameAsWritten(element) == Err(TypeError)
    ensures element.StrV? || element.ListV? || element.DictV? ==> InferNameAsWritten(element) == Err(AttributeError)
  {
  }

  /** As written, `register(None, target)` always raises and stores nothing. */
  lemma RegisterAsWrittenNeedsName(h: Host, ns: Namespace, target: Value)
    ensures RegisterInAsWritten(h, ns, NoneV, target).res.Err?
    ensures RegisterInAsWritten(h, ns, NoneV, target).ns == ns
  {
    var e := ImportOf(h, target);
    if e.Ok? {
      InferNameAsWrittenFails(e.value);
    }
  }

  /** The function `os.getcwd`, whose `__name__` is "getcwd". */
  const Getcwd: Value := ObjV(1, map["__name__" := StrV("getcwd")])

  /** A host whose module `os` holds Getcwd. */
  function GetcwdHost(invoke: (Value, seq<Value>, seq<(string, Value)>) -> Result<Value>, builtins: Value): Host {
    Host(map["os" := ObjV(0, map["getcwd" := Getcwd])], invoke, builtins)
  }

  lemma GetcwdNames()
    ensures DottedPath("os") && IsIdent("getcwd")
  {
    assert IsIdent("os") by {
      assert WordChar('o') && WordChar('s');
    }
    IdentIsDottedPath("os");
    assert forall k :: 0 <= k < |"getcwd"| ==> WordChar("getcwd"[k]);
  }

  lemma GetcwdImport(invoke: (Value, seq<Value>, seq<(string, Value)>) -> Result<Value>, builtins: Value)
    ensures ImportOf(GetcwdHost(invoke, builtins), StrV("os:getcwd")) == Ok(Getcwd)
  {
    var h := GetcwdHost(invoke, builtins);
    GetcwdNames();
    ImportQualified(h, "os", ["getcwd"]);
    GetcwdTarget();
    GetcwdWalk();
  }

  lemma GetcwdTarget()
    ensures "os" + ":" + Join(["getcwd"], '.') == "os:getcwd"
  {
    assert Join(["getcwd"], '.') == "getcwd";
  }

  lemma GetcwdWalk()
    ensures Walk(ObjV(0, map["getcwd" := Getcwd]), ["getcwd"]) == Ok(Getcwd)
  {
    WalkOneStep(ObjV(0, map["getcwd" := Getcwd]), [], "getcwd");
    assert [] + ["getcwd"] == ["getcwd"];
  }

  /** The as-written inference refuses Getcwd with TypeError; the intended one reads its name. */
  lemma GetcwdName()
    ensures InferNameAsWritten(Getcwd) == Err(TypeError)
    ensures InferName(Getcwd) == Ok(StrV("getcwd"))
  {
  }

  /** `register(None, "os:getcwd")` as written raises TypeError and stores nothing. */
  lemma RegisterNoneAsWritten(invoke: (Value, seq<Value>, seq<(string, Value)>) -> Result<Value>, builtins: Value, ns: Namespace)
    ensures RegisterInAsWritten(GetcwdHost(invoke, builtins), ns, NoneV, StrV("os:getcwd")) == Step(Err(TypeError), ns)
  {
    GetcwdImport(invoke, builtins);
    GetcwdName();
  }

  /** `register(None, "os:getcwd")` with the intended inference stores the function under "getcwd". */
  lemma RegisterNoneInfers(invoke: (Value, seq<Value>, seq<(string, Value)>) -> Result<Value>, builtins: Value, ns: Namespace)
    ensures RegisterIn(GetcwdHost(invoke, builtins), ns, NoneV, StrV("os:getcwd")) ==
      Step(Ok(StrV("getcwd")), ns[StrV("getcwd") := Getcwd])
  {
    GetcwdImport(invoke, builtins);
    GetcwdName();
  }
}
