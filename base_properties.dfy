/**
 * What `BaseLiaison.process_command` promises: an envelope the schema
 * refuses is dropped, missing `args` and `kwargs` default to empty, and a
 * valid envelope runs exactly the companion method its command names, on
 * its arguments, and returns what that method returns or raises.
 */
module BaseProperties {
  import opened Values
  import opened Grammar
  import opened Companions
  import opened CompanionProperties
  import opened Base

  /** An envelope the schema refuses gives None and leaves the namespace alone. */
  lemma ProcessDropsInvalid(h: Host, valid: Value -> bool, ns: Namespace, command: Value)
    requires !valid(command)
    ensures ProcessIn(h, valid, ns, command) == Step(Ok(NoneV), ns)
  {
  }

  /** The entries `args: []` and `kwargs: {}`. */
  const Defaults: seq<(Value, Value)> := [(StrV("args"), ListV([])), (StrV("kwargs"), DictV([]))]

  /** An envelope without `args` and `kwargs` is prepared as if it held an empty list and an empty dict. */
  lemma PrepareDefaults(table: map<string, Command>, e: seq<(Value, Value)>)
    requires !HasKey(e, StrV("args")) && !HasKey(e, StrV("kwargs"))
    ensures Prepare(table, DictV(e)) == Prepare(table, DictV(e + Defaults))
  {
    var f := Defaults;
    assert !HasKey(f, StrV("command"));
    assert f[0].0 == StrV("args") && f[1].0 == StrV("kwargs");
    HasKeyTail(f, StrV("kwargs"));
    assert f[1..][0].0 == StrV("kwargs");
    LookupAppend(e, f, StrV("command"));
    LookupAppend(e, f, StrV("args"));
    LookupAppend(e, f, StrV("kwargs"));
    assert DictIndex(e + f, StrV("command")) == DictIndex(e, StrV("command"));
    assert DictGet(e + f, StrV("args"), ListV([])) == ListV([]) == DictGet(e, StrV("args"), ListV([]));
    assert DictGet(e + f, StrV("kwargs"), DictV([])) == DictV([]) == DictGet(e, StrV("kwargs"), DictV([]));
  }

  /**
   * Once the envelope's fields are read — the command name, `args` and
   * `kwargs` — preparing it is binding them to the named method.
   */
  lemma PrepareFields(table: map<string, Command>, command: Value, name: string, pos: seq<Value>, kw: seq<(string, Value)>)
    requires command.DictV? && DictIndex(command.entries, StrV("command")) == Ok(StrV(name)) && name in table
    requires Positional(DictGet(command.entries, StrV("args"), ListV([]))) == Ok(pos)
    requires Keyword(DictGet(command.entries, StrV("kwargs"), DictV([]))) == Ok(kw)
    ensures Prepare(table, command) ==
      match Bind(SignatureOf(table[name]), pos, kw)
      case Err(x) => Err(x)
      case Ok(b) => Ok((table[name], b))
  {
  }

  /**
   * `*args` unpacks a dict into its keys and a string into its one-character
   * strings, in order.
   */
  lemma PositionalItems(args: Value)
    ensures args.DictV? ==> forall j :: 0 <= j < |args.entries| ==> Positional(args).value[j] == args.entries[j].0
    ensures args.StrV? ==> forall j :: 0 <= j < |args.s| ==> Positional(args).value[j] == StrV([args.s[j]])
  {
  }

  /**
   * `**kwargs` unpacks a dict exactly when every key is a string, into its
   * items in order; anything else raises TypeError.
   */
  lemma KeywordItems(kwargs: Value)
    ensures Keyword(kwargs).Ok? <==> kwargs.DictV? && forall i :: 0 <= i < |kwargs.entries| ==> kwargs.entries[i].0.StrV?
    ensures Keyword(kwargs).Err? ==> Keyword(kwargs).error == TypeError
    ensures Keyword(kwargs).Ok? ==> |Keyword(kwargs).value| == |kwargs.entries|
    ensures Keyword(kwargs).Ok? ==>
      forall i :: 0 <= i < |kwargs.entries| ==> Keyword(kwargs).value[i] == (kwargs.entries[i].0.s, kwargs.entries[i].1)
  {
    if kwargs.DictV? {
      KeywordArgsStrings(kwargs.entries);
    }
  }

  /**
   * Positional arguments alone bind in order: as many as the parameters,
   * or more when the method takes `*args`, which then collects the rest.
   */
  lemma BindPositional(sig: Signature, xs: seq<Value>)
    requires |xs| == |sig.params| || (sig.varargs && |xs| >= |sig.params|)
    ensures Bind(sig, xs, []) == Ok(Bound(xs[..|sig.params|], xs[|sig.params|..], []))
  {
    var n := |sig.params|;
    var none: seq<(string, Value)> := [];
    assert !(|xs| > n && !sig.varargs);
    var r := Bind(sig, xs, none);
    assert r.Ok?;
    assert |r.value.named| == n && forall i :: 0 <= i < n ==> r.value.named[i] == xs[i];
    assert r.value.named == xs[..n];
    assert r.value.extra == xs[n..];
    assert r.value.extraKw == OtherKeywords(none, sig.params) == [];
  }

  /** The envelope `{command: name, args: xs}`. */
  function Envelope(name: string, xs: seq<Value>): Value {
    DictV([(StrV("command"), StrV(name)), (StrV("args"), ListV(xs))])
  }

  lemma EnvelopeFields(name: string, xs: seq<Value>)
    ensures HasKey(Envelope(name, xs).entries, StrV("command"))
    ensures Lookup(Envelope(name, xs).entries, StrV("command")) == StrV(name)
    ensures DictGet(Envelope(name, xs).entries, StrV("args"), ListV([])) == ListV(xs)
    ensures DictGet(Envelope(name, xs).entries, StrV("kwargs"), DictV([])) == DictV([])
  {
    var e := Envelope(name, xs).entries;
    assert e[0].0 == StrV("command");
    HasKeyTail(e, StrV("args"));
    assert e[1..][0].0 == StrV("args");
    assert !HasKey(e, StrV("kwargs"));
  }

  /**
   * A valid envelope `{command: name, args: xs}` runs exactly the method the
   * command table gives for `name`, on `xs` (the surplus going to `*args`),
   * and returns what it returns or raises, with the namespace it leaves.
   */
  lemma ProcessPositional(h: Host, valid: Value -> bool, ns: Namespace, name: string, xs: seq<Value>)
    requires name in CommandTable() && valid(Envelope(name, xs))
    requires var sig := SignatureOf(CommandTable()[name]);
      |xs| == |sig.params| || (sig.varargs && |xs| >= |sig.params|)
    ensures var c := CommandTable()[name]; var n := |SignatureOf(c).params|;
      ProcessIn(h, valid, ns, Envelope(name, xs)) == DispatchIn(h, ns, c, Bound(xs[..n], xs[n..], []))
  {
    PreparePositional(name, xs);
  }

  lemma PreparePositional(name: string, xs: seq<Value>)
    requires name in CommandTable()
    requires var sig := SignatureOf(CommandTable()[name]);
      |xs| == |sig.params| || (sig.varargs && |xs| >= |sig.params|)
    ensures var c := CommandTable()[name]; var n := |SignatureOf(c).params|;
      Prepare(CommandTable(), Envelope(name, xs)) == Ok((c, Bound(xs[..n], xs[n..], [])))
  {
    var c := CommandTable()[name];
    EnvelopeFields(name, xs);
    assert Positional(ListV(xs)) == Ok(xs);
    assert Keyword(DictV([])) == Ok([]);
    PrepareFields(CommandTable(), Envelope(name, xs), name, xs, []);
    BindPositional(SignatureOf(c), xs);
  }

  /** `{command: "store", args: [n, v]}` stores `v` under `n` and returns `n`; an unhashable `n` raises TypeError. */
  lemma ProcessStore(h: Host, valid: Value -> bool, ns: Namespace, n: Value, v: Value)
    requires valid(Envelope("store", [n, v]))
    ensures Hashable(n) ==> ProcessIn(h, valid, ns, Envelope("store", [n, v])) == Step(Ok(n), ns[n := v])
    ensures !Hashable(n) ==> ProcessIn(h, valid, ns, Envelope("store", [n, v])) == Step(Err(TypeError), ns)
  {
    ProcessPositional(h, valid, ns, "store", [n, v]);
    assert [n, v][..2] == [n, v];
  }

  /** The envelope `{command: "store", kwargs: {name: n, value: v}}`. */
  function StoreByKeyword(n: Value, v: Value): Value {
    DictV([(StrV("command"), StrV("store")), (StrV("kwargs"), DictV([(StrV("name"), n), (StrV("value"), v)]))])
  }

  /** The keyword items `name=n, value=v` bind to store's two parameters. */
  lemma BindStoreKeywords(n: Value, v: Value)
    ensures KeywordArgs([(StrV("name"), n), (StrV("value"), v)]) == Ok([("name", n), ("value", v)])
    ensures Bind(SignatureOf(Store), [], [("name", n), ("value", v)]) == Ok(Bound([n, v], [], []))
  {
    var kw := [("name", n), ("value", v)];
    var d := [(StrV("name"), n), (StrV("value"), v)];
    assert d[0].0 == StrV("name") && d[1].0 == StrV("value");
    KeywordArgsStrings(d);
    var r := KeywordArgs(d).value;
    assert r[0] == kw[0] && r[1] == kw[1];
    assert r == kw;
    assert HasKw(kw, "name") by { assert kw[0].0 == "name"; }
    assert HasKw(kw, "value") by { assert kw[1].0 == "value"; }
    assert KwLookup(kw, "value") == v by {
      assert kw[1..] == [("value", v)];
    }
    var b := Bind(SignatureOf(Store), [], kw);
    assert b.Ok?;
    assert b.value.named == [n, v];
    OtherKeywordsNone(kw, ["name", "value"]);
  }

  /** The same store given by keyword, with `args` left to its default. */
  lemma ProcessStoreByKeyword(h: Host, valid: Value -> bool, ns: Namespace, n: Value, v: Value)
    requires valid(StoreByKeyword(n, v))
    ensures ProcessIn(h, valid, ns, StoreByKeyword(n, v)) == StoreIn(ns, n, v)
  {
    StoreByKeywordFields(n, v);
    BindStoreKeywords(n, v);
    CommandTableEntries();
    PrepareFields(CommandTable(), StoreByKeyword(n, v), "store", [], [("name", n), ("value", v)]);
  }

  lemma StoreByKeywordFields(n: Value, v: Value)
    ensures HasKey(StoreByKeyword(n, v).entries, StrV("command"))
    ensures Lookup(StoreByKeyword(n, v).entries, StrV("command")) == StrV("store")
    ensures Positional(DictGet(StoreByKeyword(n, v).entries, StrV("args"), ListV([]))) == Ok([])
    ensures DictGet(StoreByKeyword(n, v).entries, StrV("kwargs"), DictV([])) == DictV([(StrV("name"), n), (StrV("value"), v)])
  {
    var e := StoreByKeyword(n, v).entries;
    assert e[0].0 == StrV("command");
    HasKeyTail(e, StrV("kwargs"));
    assert e[1..][0].0 == StrV("kwargs");
    assert !HasKey(e, StrV("args"));
  }

  /** The keyword items `p1=v1, …, pn=vn`. */
  function ByName(params: seq<string>, vs: seq<Value>): (kw: seq<(string, Value)>)
    requires |vs| == |params|
    ensures |kw| == |params|
  {
    seq(|params|, i requires 0 <= i < |params| => (params[i], vs[i]))
  }

  /**
   * Keywords alone bind by name: one keyword per parameter fills each
   * parameter with its own value and leaves nothing for `*args` or
   * `**kwargs`.
   */
  lemma BindByName(sig: Signature, vs: seq<Value>)
    requires |vs| == |sig.params| && "self" !in sig.params
    requires forall i, j :: 0 <= i < j < |sig.params| ==> sig.params[i] != sig.params[j]
    ensures Bind(sig, [], ByName(sig.params, vs)) == Ok(Bound(vs, [], []))
  {
    var kw := ByName(sig.params, vs);
    var n := |sig.params|;
    assert sig.params[..Min(0, n)] == [];
    assert !GivenTwice(sig, 0, kw);
    assert !UnexpectedKeyword(sig, kw);
    forall i | 0 <= i < n ensures HasKw(kw, sig.params[i]) && KwLookup(kw, sig.params[i]) == vs[i] {
      assert kw[i].0 == sig.params[i];
      var v := KwLookup(kw, sig.params[i]);
      var j :| 0 <= j < |kw| && kw[j] == (sig.params[i], v);
      assert j == i;
    }
    assert !MissingArgument(sig, 0, kw);
    OtherKeywordsNone(kw, sig.params);
    var r := Bind(sig, [], kw);
    assert r.value.named == vs;
  }

  /** Every companion method has `self` bound already: a keyword naming it raises TypeError. */
  lemma BindRejectsSelf(sig: Signature, pos: seq<Value>, kw: seq<(string, Value)>, j: nat)
    requires j < |kw| && kw[j].0 == "self"
    ensures Bind(sig, pos, kw) == Err(TypeError)
  {
    assert GivenTwice(sig, |pos|, kw);
  }

  /** The envelope `{command: "run", args: [f], kwargs: {self: x}}`. */
  function RunWithSelf(f: Value, x: Value): Value {
    DictV(Envelope("run", [f]).entries + [(StrV("kwargs"), DictV([(StrV("self"), x)]))])
  }

  lemma RunWithSelfFields(f: Value, x: Value)
    ensures HasKey(RunWithSelf(f, x).entries, StrV("command"))
    ensures Lookup(RunWithSelf(f, x).entries, StrV("command")) == StrV("run")
    ensures DictGet(RunWithSelf(f, x).entries, StrV("args"), ListV([])) == ListV([f])
    ensures DictGet(RunWithSelf(f, x).entries, StrV("kwargs"), DictV([])) == DictV([(StrV("self"), x)])
  {
    var e := Envelope("run", [f]).entries;
    var k := [(StrV("kwargs"), DictV([(StrV("self"), x)]))];
    EnvelopeFields("run", [f]);
    assert !HasKey(e, StrV("kwargs"));
    assert k[0].0 == StrV("kwargs");
    assert !HasKey(k, StrV("command")) && !HasKey(k, StrV("args"));
    LookupAppend(e, k, StrV("command"));
    LookupAppend(e, k, StrV("args"));
    LookupAppend(e, k, StrV("kwargs"));
  }

  lemma KeywordSelf(x: Value)
    ensures Keyword(DictV([(StrV("self"), x)])) == Ok([("self", x)])
  {
    var d := [(StrV("self"), x)];
    assert d[0].0 == StrV("self");
    KeywordArgsStrings(d);
    var kw := KeywordArgs(d).value;
    assert |kw| == 1 && kw[0] == ("self", x);
    assert kw == [("self", x)];
  }

  lemma PrepareRunSelf(f: Value, x: Value)
    ensures Prepare(CommandTable(), RunWithSelf(f, x)) == Err(TypeError)
  {
    RunWithSelfFields(f, x);
    KeywordSelf(x);
    assert Positional(ListV([f])) == Ok([f]);
    CommandTableEntries();
    PrepareFields(CommandTable(), RunWithSelf(f, x), "run", [f], [("self", x)]);
    BindRejectsSelf(SignatureOf(Run), [f], [("self", x)], 0);
  }

  /** `run` with a keyword `self` raises TypeError before anything is resolved, and changes nothing. */
  lemma ProcessRunSelfKeyword(h: Host, valid: Value -> bool, ns: Namespace, f: Value, x: Value)
    requires valid(RunWithSelf(f, x))
    ensures ProcessIn(h, valid, ns, RunWithSelf(f, x)) == Step(Err(TypeError), ns)
  {
    PrepareRunSelf(f, x);
  }

  /** `{command: "get", args: [t]}` is `resolve(t)`. */
  lemma ProcessGet(h: Host, valid: Value -> bool, ns: Namespace, t: Value)
    requires valid(Envelope("get", [t]))
    ensures ProcessIn(h, valid, ns, Envelope("get", [t])) == ResolveIn(h, ns, t)
  {
    ProcessPositional(h, valid, ns, "get", [t]);
    CommandTableEntries();
    assert [t][..1] == [t];
  }

  /** `{command: "run", args: [f] + xs}` is `call(f, *xs)`. */
  lemma ProcessRun(h: Host, valid: Value -> bool, ns: Namespace, f: Value, xs: seq<Value>)
    requires valid(Envelope("run", [f] + xs))
    ensures ProcessIn(h, valid, ns, Envelope("run", [f] + xs)) == CallIn(h, ns, f, xs, [])
  {
    ProcessPositional(h, valid, ns, "run", [f] + xs);
    CommandTableEntries();
    assert ([f] + xs)[..1] == [f] && ([f] + xs)[1..] == xs;
  }

  /**
   * `get` resolves its argument without actualizing it: `{command: "get",
   * args: ["$" + p]}` takes the import route and fails the import grammar
   * when the part of `"$" + p` before the first dot is not a key.
   */
  lemma ProcessGetReference(h: Host, valid: Value -> bool, ns: Namespace, p: string)
    requires valid(Envelope("get", [StrV("$" + p)])) && StrV(HeadOf("$" + p)) !in ns
    ensures ProcessIn(h, valid, ns, Envelope("get", [StrV("$" + p)])) == Step(Err(AssertionError), ns)
  {
    ProcessGet(h, valid, ns, StrV("$" + p));
    assert ("$" + p)[0] == '$';
    assert !FullMatchImport("$" + p);
  }

  /** `{command: "get", args: [n]}` gives the value stored under the Python name `n`. */
  lemma ProcessGetName(h: Host, valid: Value -> bool, ns: Namespace, n: string)
    requires valid(Envelope("get", [StrV(n)])) && PyName(n) && StrV(n) in ns
    ensures ProcessIn(h, valid, ns, Envelope("get", [StrV(n)])).res == Ok(ns[StrV(n)])
  {
    ResolveName(h, ns, n);
    ProcessGet(h, valid, ns, StrV(n));
  }

  /**
   * `{command: "run", args: ["$" + p]}` when the part of `"$" + p` before the
   * first dot is not a key: the callee cannot be resolved, and the
   * AssertionError reaches the caller.
   */
  lemma ProcessRunReference(h: Host, valid: Value -> bool, ns: Namespace, p: string)
    requires valid(Envelope("run", [StrV("$" + p)])) && StrV(HeadOf("$" + p)) !in ns
    ensures ProcessIn(h, valid, ns, Envelope("run", [StrV("$" + p)])) == Step(Err(AssertionError), ns)
  {
    assert [StrV("$" + p)] == [StrV("$" + p)] + [];
    ProcessRun(h, valid, ns, StrV("$" + p), []);
    assert ("$" + p)[0] == '$';
    assert !FullMatchImport("$" + p);
  }

  /** `{command: "try", args: [f] + xs}` returns attempt's record: it raises only what is not an Exception. */
  lemma ProcessTry(h: Host, valid: Value -> bool, ns: Namespace, f: Value, xs: seq<Value>)
    requires valid(Envelope("try", [f] + xs))
    ensures ProcessIn(h, valid, ns, Envelope("try", [f] + xs)) == AttemptIn(h, ns, f, xs, [])
    ensures ProcessIn(h, valid, ns, Envelope("try", [f] + xs)).res.Err? ==>
      !IsException(ProcessIn(h, valid, ns, Envelope("try", [f] + xs)).res.error)
  {
    ProcessAttempt(h, valid, ns, f, xs);
    AttemptRecord(h, ns, f, xs, []);
  }

  lemma ProcessAttempt(h: Host, valid: Value -> bool, ns: Namespace, f: Value, xs: seq<Value>)
    requires valid(Envelope("try", [f] + xs))
    ensures ProcessIn(h, valid, ns, Envelope("try", [f] + xs)) == AttemptIn(h, ns, f, xs, [])
  {
    ProcessPositional(h, valid, ns, "try", [f] + xs);
    CommandTableEntries();
    assert ([f] + xs)[..1] == [f] && ([f] + xs)[1..] == xs;
  }

  /** `{command: "ping"}`: "pong", and nothing changes. */
  lemma ProcessPing(h: Host, valid: Value -> bool, ns: Namespace)
    requires valid(DictV([(StrV("command"), StrV("ping"))]))
    ensures ProcessIn(h, valid, ns, DictV([(StrV("command"), StrV("ping"))])) == Step(Ok(StrV("pong")), ns)
  {
    var e := [(StrV("command"), StrV("ping"))];
    assert e[0].0 == StrV("command");
    assert !HasKey(e, StrV("args")) && !HasKey(e, StrV("kwargs"));
    assert Positional(ListV([])) == Ok([]);
    assert Keyword(DictV([])) == Ok([]);
    CommandTableEntries();
    PrepareFields(CommandTable(), DictV(e), "ping", [], []);
    BindPositional(SignatureOf(Ping), []);
  }

  /** `"$" + n` for an identifier `n` has no `.`: its head is the whole string, which is not `n`. */
  lemma DollarName(n: string)
    requires IsIdent(n)
    ensures HeadOf("$" + n) == "$" + n && "$" + n != n
  {
    var t := "$" + n;
    forall k | 0 <= k < |t| ensures t[k] != '.' {
      if k > 0 {
        assert t[k] == n[k - 1] && WordChar(n[k - 1]);
      }
    }
    SplitFree(t, '.');
    assert |t| != |n|;
  }

  /**
   * Store a value under the Python name `n`, then ask for it: `get n` gives
   * the value back, while `get "$" + n` fails with AssertionError, since
   * `get` does not actualize.
   */
  lemma StoreThenGet(h: Host, valid: Value -> bool, ns: Namespace, n: string, v: Value)
    requires PyName(n) && StrV("$" + n) !in ns
    requires valid(Envelope("store", [StrV(n), v]))
    requires valid(Envelope("get", [StrV(n)])) && valid(Envelope("get", [StrV("$" + n)]))
    ensures ProcessIn(h, valid, ns, Envelope("store", [StrV(n), v])) == Step(Ok(StrV(n)), ns[StrV(n) := v])
    ensures ProcessIn(h, valid, ns[StrV(n) := v], Envelope("get", [StrV(n)])).res == Ok(v)
    ensures ProcessIn(h, valid, ns[StrV(n) := v], Envelope("get", [StrV("$" + n)])).res == Err(AssertionError)
  {
    ProcessStore(h, valid, ns, StrV(n), v);
    ProcessGetName(h, valid, ns[StrV(n) := v], n);
    DollarName(n);
    ProcessGetReference(h, valid, ns[StrV(n) := v], n);
  }
}
