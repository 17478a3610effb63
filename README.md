# liaison: the companion and its command dispatch, in Dafny

This project models the core of `liaison`, a small bridge that lets a remote
client drive a Python process by sending JSON command envelopes such as
`{"command": "store", "args": ["x", 42]}`. It covers two pieces.

- **The `Companion`** (`liaison/companion/companion.py`) holds a namespace
  dictionary seeded with itself under `companion` and a table of seven
  commands. It offers these operations:
  - `resolve_import` checks an import string such as `numpy.random:randint`
    against a regular expression, imports the module, and walks the
    attributes.
  - `resolve` reads a dotted path from the namespace through `eval`, or
    falls back to `resolve_import`.
  - `actualize` turns a `$name.attr` reference into its value.
  - `call` and `attempt` invoke a resolved callable on actualized
    arguments. `attempt` catches every `Exception` into a
    `{success, result}` record.
  - `store`, `register` and `initialize` write the namespace.
  - `ping` answers "pong".
- **`BaseLiaison`** (`liaison/base.py`) owns a companion and registers
  itself in it under `liaison`. Its `process_command` does four things:
  - it drops an envelope that fails the command schema;
  - it defaults `args` to `[]` and `kwargs` to `{}`;
  - it looks the command name up in the table;
  - it calls the bound method with `*args, **kwargs`.

## Module layout

- `values.dfy` (module `Values`) defines the Python values the core handles, the exception kinds and the host.
  - Exceptions are a `Result` datatype.
  - Dictionaries are insertion-ordered entry lists. The namespace is a `map<Value, Value>`.
  - `getattr` and the attribute walk are defined here.
  - The host stands for what the core cannot see: `importlib` becomes a module table, calling a value becomes the `invoke` function, and `builtins` is the dictionary `eval` inserts.
- `grammar.dfy` (module `Grammar`) holds `str.split` and `str.join` for one separator, and the first-occurrence cut of `split(":", 1)`.
  - Both regular expressions are written as an automaton that accepts the same strings, and proved equal to structural grammars: a dotted path, and a dotted path optionally followed by `:` and another one.
  - It also defines Python names and keywords, as `eval` reads them.
- `companion.dfy` (module `Companions`) gives each companion operation as a function of the host and the namespace it starts from, returning a `Step`: the result and the namespace it leaves.
  - `eval` inserts `__builtins__` into the dictionary it is given as globals. `resolve` therefore changes the namespace, and the model keeps that.
  - The class `Companion` holds the namespace and runs the operations in place. Each method is proved to agree with its function.
  - `resolve_import` and the two comprehensions of `call` are loops, proved against the functions with loop invariants.
- `base.dfy` (module `Base`) holds:
  - Python's binding of `*args` and `**kwargs` to a parameter list;
  - the preparation of an envelope;
  - dispatch to the command table;
  - the class `BaseLiaison`.
- `companion_properties.dfy` and `base_properties.dfy` hold the lemmas about the functions.

## How the model reads the code

- **`get` does not actualize.** The `get` command is bound to `resolve`, not `actualize`. So `{"command": "get", "args": ["$x"]}` does not return the value stored under `x`.
  - The head `$x` is not a namespace key, so `resolve` falls to `resolve_import`. The import grammar refuses the `$`, and the call raises AssertionError.
  - The model follows the code. `BaseProperties.StoreThenGet` shows both `get n` (the value) and `get "$" + n` (AssertionError) for any stored Python name `n`.
  - In the same way, `{"command": "run", "args": ["$name"]}` raises AssertionError when the part of `"$name"` before the first dot is not a key (`BaseProperties.ProcessRunReference`).
- **Names that the grammars accept but `eval` refuses.** A stored name that is a Python keyword, such as `class`, passes `str.split` and the namespace test, but `eval("class")` is a syntax error (`CompanionProperties.StoredKeywordUnreadable`).
- **`self` is bound.** Every command calls a bound method, so a keyword named `self` raises TypeError, like any parameter given twice (`BaseProperties.ProcessRunSelfKeyword`). In the same way, `init` cannot forward a keyword named `fcn` to `call`, because `cls` already fills that parameter by position.
- **`attempt` catches `Exception` only.** A `BaseException` outside `Exception` (`SystemExit`, `KeyboardInterrupt`) passes through; the error kind `BaseOnly` stands for those.

## Model

| member | source | states |
|---|---|---|
| Values.Lookup | liaison/base.py:34 | `d[k]` of a present key is the value of an entry with that key |
| Values.DictIndex | liaison/base.py:34 | `d[k]` gives a value exactly when the key is present, the value of an entry with that key; otherwise KeyError |
| Values.DictInsert | liaison/companion/companion.py:148 | `d[k] = v` appends a new key; for an existing key it keeps every key in its place and every other entry as it was |
| Values.DictInsertLookup | liaison/companion/companion.py:148 | after `d[k] = v`, `d[k]` is `v` |
| Values.LookupAppend | liaison/base.py:31-32 | a key of `e + f` is a key of `e` or `f`, and the first entry gives its value |
| Values.GetAttr | liaison/companion/companion.py:65 | `getattr` succeeds exactly when the object has the attribute, and gives it; otherwise AttributeError |
| Values.WalkAppend | liaison/companion/companion.py:63-65 | walking `xs + ys` is walking `xs` then `ys` from where it stopped |
| Values.WalkOneStep | liaison/companion/companion.py:63-65 | one more attribute is one more `getattr` on the walk's result |
| Grammar.Split | liaison/companion/companion.py:55 | `str.split` gives at least one piece, none holding the separator |
| Grammar.SplitJoin | liaison/companion/companion.py:55 | joining the pieces of a split gives the string back |
| Grammar.JoinSplit | liaison/companion/companion.py:55 | splitting a join of separator-free pieces gives the pieces back |
| Grammar.IndexOf | liaison/companion/companion.py:53 | `split(":", 1)` cuts at a colon with no colon before it |
| Grammar.IndexOfJoin | liaison/companion/companion.py:53 | in `p + ":" + q` with no colon in `p`, the cut is right after `p` |
| Grammar.InWordSplit | liaison/companion/companion.py:8-10 | the automaton without a colon group accepts exactly the dotted paths |
| Grammar.ColonSplit | liaison/companion/companion.py:5-7 | the colon group checks a dotted path on each side of the first colon |
| Grammar.ImportRegexAgrees | liaison/companion/companion.py:5-7 | `RE_IMPORT_STRING.fullmatch` accepts exactly `ident(.ident)*` optionally followed by `:ident(.ident)*` |
| Grammar.ResolveRegexAgrees | liaison/companion/companion.py:8-10 | `RE_RESOLVE_STRING.fullmatch` accepts exactly `$` followed by a dotted path |
| Grammar.DottedPathChars | liaison/companion/companion.py:5-7 | a dotted path holds only word characters and dots |
| Grammar.IdentIsDottedPath | liaison/companion/companion.py:93 | an identifier splits into itself and is a dotted path |
| Grammar.ImportStringShape | liaison/companion/companion.py:51-53 | an import string with a colon has no second colon after the first |
| Companions.CommandTable | liaison/companion/companion.py:21-29 | the table has exactly the seven command names |
| Companions.CommandTableEntries | liaison/companion/companion.py:21-29 | each name is bound to its own method, and different names to different methods |
| Companions.Companion.constructor | liaison/companion/companion.py:15-29 | a new companion's namespace is exactly `{companion: itself}`; the commands are the seven names |
| Companions.Companion.ResolveImport | liaison/companion/companion.py:31-67 | the loop over the attributes computes the grammar check, the module lookup and the getattr walk of `ImportOf` |
| Companions.Companion.Resolve | liaison/companion/companion.py:84-96 | result and new namespace are those of `ResolveIn`: `eval` on the namespace route, `resolve_import` otherwise |
| Companions.Companion.Actualize | liaison/companion/companion.py:69-82 | result and new namespace are those of `ActualizeIn` |
| Companions.Companion.ActualizeEach | liaison/companion/companion.py:147 | the loop computes the positional comprehension, left to right, against the live namespace |
| Companions.Companion.ActualizeItems | liaison/companion/companion.py:148 | the loop computes the keyword comprehension: key, then value, then insertion |
| Companions.Companion.Call | liaison/companion/companion.py:127-149 | result and new namespace are those of `CallIn`: resolve, actualize, bind, invoke |
| Companions.Companion.Attempt | liaison/companion/companion.py:151-180 | result and new namespace are those of `AttemptIn` |
| Companions.Companion.Initialize | liaison/companion/companion.py:98-125 | result and new namespace are those of `InitializeIn`: a keyword `fcn` or `self` raises TypeError, otherwise call, then store the result under `name` and return `name` |
| Companions.Companion.Register | liaison/companion/companion.py:182-212 | a failure leaves the namespace as it was; success stores the imported element under the returned name |
| Companions.Companion.Store | liaison/companion/companion.py:214-232 | returns `name` and the namespace is the old one with `name` mapped to `value`; an unhashable name raises TypeError and changes nothing |
| Companions.Companion.Ping | liaison/companion/companion.py:234-244 | always "pong" |
| CompanionProperties.WalkError | liaison/companion/companion.py:64-65 | an attribute walk fails only with AttributeError |
| CompanionProperties.ImportRejects | liaison/companion/companion.py:46-49 | `resolve_import` raises AssertionError exactly for targets outside the import grammar |
| CompanionProperties.IdentsJoin | liaison/companion/companion.py:55 | identifiers joined by dots split back into those identifiers |
| CompanionProperties.ImportQualified | liaison/companion/companion.py:51-65 | `m:a1.….an` imports `m`, then takes `a1`, …, `an` left to right; a missing module raises ModuleNotFoundError |
| CompanionProperties.ImportModuleOnly | liaison/companion/companion.py:56-67 | a target without a colon is imported whole, with no attribute walk |
| CompanionProperties.ImportSecondColon | liaison/companion/companion.py:47-53 | a second colon makes the target fail the grammar |
| CompanionProperties.ResolveNamespacePath | liaison/companion/companion.py:93-94 | on the namespace route, `n.a1….ak` is the getattr walk from the value under `n`; only `__builtins__` may be added |
| CompanionProperties.ResolveName | liaison/companion/companion.py:93-94 | a stored Python name resolves to its value |
| CompanionProperties.ResolveImportRoute | liaison/companion/companion.py:95-96 | when the head is not a key, a dotted path is imported as a module and the namespace is untouched |
| CompanionProperties.ActualizeRoutes | liaison/companion/companion.py:79-82 | exactly the `$`-references are resolved, with the sigil dropped; every other value, lists and dicts included, comes back unchanged |
| CompanionProperties.StoreThenResolve | liaison/companion/companion.py:230-232 | after `store(n, v)`, the call returned `n`, and `resolve(n)` and `actualize("$" + n)` give `v` |
| CompanionProperties.StoredKeywordUnreadable | liaison/companion/companion.py:93-94 | a stored keyword such as `class` cannot be read back (SyntaxError) |
| CompanionProperties.SettledFrame | liaison/companion/companion.py:94 | a settled namespace keeps every entry and gains at most `__builtins__` |
| CompanionProperties.SettledTrans | liaison/companion/companion.py:94 | settling twice is settling once |
| CompanionProperties.ActualizeArgsSettles | liaison/companion/companion.py:147 | the positional comprehension only ever adds `__builtins__` |
| CompanionProperties.ActualizeKwargsSettles | liaison/companion/companion.py:148 | the keyword comprehension only ever adds `__builtins__` |
| CompanionProperties.CallSettles | liaison/companion/companion.py:146-149 | `call` never changes the namespace except for `__builtins__` |
| CompanionProperties.ActualizeStable | liaison/companion/companion.py:79-82 | once eval has added `__builtins__`, every argument except a `$__builtins__…` reference actualizes as before |
| CompanionProperties.ActualizeArgsPointwise | liaison/companion/companion.py:147 | from any namespace eval has settled, each positional argument that does not read `__builtins__` is actualized once, in order, as against the starting namespace; the first failure is the error, and the namespace stays settled |
| CompanionProperties.ActualizeKwargsPointwise | liaison/companion/companion.py:148 | from any namespace eval has settled, the keyword comprehension builds `InsertItems`: each key and value actualized against the starting namespace, then inserted with `d[k] = v` |
| CompanionProperties.InsertItemsPointwise | liaison/companion/companion.py:148 | the dict is built exactly when every item's key and value actualize and the key is hashable; otherwise the first failing item's exception is raised |
| CompanionProperties.InsertItemsPlain | liaison/companion/companion.py:148 | with distinct keyword names that are not `$` references, the dict holds each name with its actualized value, in order |
| CompanionProperties.PlainKeywordItems | liaison/companion/companion.py:148 | with distinct keyword names that are not `$` references, the dict is built and `**` of it gives each name with its actualized value, in order |
| CompanionProperties.KeywordArgsOf | liaison/companion/companion.py:148 | `**d` of string-keyed entries passes exactly those names and values, in order |
| CompanionProperties.KeywordArgsStrings | liaison/companion/companion.py:148 | `**d` succeeds exactly when every key is a string and passes the items in order |
| CompanionProperties.CallPointwise | liaison/companion/companion.py:146-149 | from any namespace, when no argument reads `__builtins__`, the callee resolves, the arguments actualize and the keyword dict has string keys: the callee receives the actualized positional arguments and the dict's items, call returns what it returns, and the namespace stays settled |
| CompanionProperties.CallPlainKeywords | liaison/companion/companion.py:146-149 | from any namespace, with distinct keyword names that are not `$` references, the callee receives each name with its actualized value |
| CompanionProperties.OutcomeFields | liaison/companion/companion.py:172-180 | the record has `success` and `result` entries |
| CompanionProperties.AttemptRecord | liaison/companion/companion.py:171-180 | `attempt` raises only non-`Exception` errors; `success` is whether the call succeeded; `result` is its value or the exception |
| CompanionProperties.InitializeEffect | liaison/companion/companion.py:119-125 | a keyword `fcn` or `self` raises TypeError and changes nothing; otherwise returns `name` and stores the call's result, and a failure keeps every entry, with at most `__builtins__` added |
| CompanionProperties.InitializeThenResolve | liaison/companion/companion.py:119-125 | after `initialize(n, …)`, `resolve(n)` gives the constructed value |
| CompanionProperties.RegisterEffect | liaison/companion/companion.py:199-212 | stores the imported element under the given or inferred name; every failure leaves the namespace as it was; an element without `__name__` raises AttributeError |
| CompanionProperties.RegisterThenResolve | liaison/companion/companion.py:210-212 | after `register(n, target)`, `resolve(n)` gives the imported element |
| CompanionProperties.InferNameAsWrittenFails | liaison/companion/companion.py:202-203 | the containment test never leads to a name: TypeError on objects, AttributeError on containers |
| CompanionProperties.RegisterAsWrittenNeedsName | liaison/companion/companion.py:199-208 | as written, `register(None, target)` always raises and stores nothing |
| CompanionProperties.GetcwdImport | liaison/companion/companion.py:51-65 | `os:getcwd` imports `os` and takes its `getcwd` |
| CompanionProperties.GetcwdName | liaison/companion/companion.py:202-203 | on a function, the test as written raises TypeError, while the attribute read gives its name |
| CompanionProperties.RegisterNoneAsWritten | liaison/companion/companion.py:199-208 | `register(None, "os:getcwd")` raises TypeError as written |
| CompanionProperties.RegisterNoneInfers | liaison/companion/companion.py:199-212 | with the intended inference, `register(None, "os:getcwd")` stores the function under "getcwd" |
| Base.KwLookup | liaison/base.py:36 | the value a keyword binds comes from an item with that name |
| Base.OtherKeywords | liaison/base.py:36 | `**kwargs` collects exactly the items of the call that name no parameter: each collected item names none, and each such item is collected |
| Base.OtherKeywordsNone | liaison/base.py:36 | when every keyword names a parameter, `**kwargs` is empty |
| Base.OtherKeywordsAppend | liaison/base.py:36 | `**kwargs` keeps the order of the call |
| Base.Bind | liaison/base.py:36 | binding succeeds exactly when there are not too many positionals, no keyword names `self` or a parameter given by position, no keyword is unexpected and no parameter is missing, and fails otherwise with TypeError; positionals fill the parameters in order, keywords fill the rest by name, the surplus goes to `*args`, and `**kwargs` receives exactly the keywords that name no parameter (empty for a method without it) |
| Base.Prepare | liaison/base.py:30-36 | a prepared call binds one argument per parameter of the chosen method |
| Base.PrepareParts | liaison/base.py:34-36 | a missing command key raises KeyError as is; success means the name is in the table, and the call goes to the method the table gives for it |
| Base.BaseLiaison.constructor | liaison/base.py:13-22 | uses the given companion or makes one; registers itself under `liaison`; messages start empty |
| Base.BaseLiaison.ProcessCommand | liaison/base.py:24-36 | result and new namespace are those of `ProcessIn`; an invalid envelope gives None and changes nothing |
| BaseProperties.ProcessDropsInvalid | liaison/base.py:26-29 | an envelope the schema refuses gives None and leaves the namespace alone |
| BaseProperties.PrepareFields | liaison/base.py:31-36 | once the name, `args` and `kwargs` are read, preparing is binding them to the table's method for the name |
| BaseProperties.PrepareDefaults | liaison/base.py:31-32 | missing `args` and `kwargs` behave as `[]` and `{}` |
| Base.SignatureOf | liaison/companion/companion.py:84-234 | the parameters after `self` of `resolve` (84: `target`), `initialize` (98: `name`, `cls`, `*args`, `**kwargs`), `call` (127) and `attempt` (151: `fcn`, `*args`, `**kwargs`), `register` (182: `name`, `target`), `store` (214: `name`, `value`) and `ping` (234: none); no parameter is `self` or repeats, and `*args` goes with `**kwargs` |
| Base.Positional | liaison/base.py:36 | `*args` unpacks a list, a dict or a string and raises TypeError for anything else; a list gives its items |
| BaseProperties.PositionalItems | liaison/base.py:36 | `*args` of a dict gives its keys in order, of a string its one-character strings in order |
| Base.Keyword | liaison/base.py:36 | `**kwargs` of anything but a dict raises TypeError; an empty dict gives no keywords |
| BaseProperties.KeywordItems | liaison/base.py:36 | `**kwargs` succeeds exactly on a dict whose keys are all strings, giving its items in order; otherwise TypeError |
| BaseProperties.BindPositional | liaison/base.py:36 | positional arguments alone bind in order, the surplus going to `*args` |
| BaseProperties.EnvelopeFields | liaison/base.py:31-34 | the command, `args` and `kwargs` read from `{command, args}` |
| BaseProperties.ProcessPositional | liaison/base.py:34-36 | a valid envelope runs exactly the table's method for its name on its arguments, and returns what it returns or raises |
| BaseProperties.PreparePositional | liaison/base.py:30-36 | `{command: name, args: xs}` selects the table's method and binds `xs` in order |
| BaseProperties.ProcessStore | liaison/base.py:34-36 | a `store` envelope with `[n, v]` returns `n` and sets `namespace[n] = v` |
| BaseProperties.BindByName | liaison/base.py:36 | one keyword per parameter fills each parameter with its own value and leaves `*args` and `**kwargs` empty |
| BaseProperties.BindRejectsSelf | liaison/base.py:36 | a keyword named `self` always raises TypeError |
| BaseProperties.ProcessRunSelfKeyword | liaison/base.py:34-36 | `{command: "run", args: [f], kwargs: {self: x}}` raises TypeError and changes nothing |
| BaseProperties.BindStoreKeywords | liaison/base.py:36 | `name=` and `value=` bind to store's two parameters |
| BaseProperties.ProcessStoreByKeyword | liaison/base.py:31-36 | a `store` envelope given by keyword does the same as `store(n, v)` |
| BaseProperties.ProcessGet | liaison/base.py:34-36 | `{command: "get", args: [t]}` is `resolve(t)` |
| BaseProperties.ProcessRun | liaison/base.py:34-36 | `{command: "run", args: [f] + xs}` is `call(f, *xs)` |
| BaseProperties.ProcessAttempt | liaison/base.py:34-36 | `{command: "try", args: [f] + xs}` is `attempt(f, *xs)` |
| BaseProperties.ProcessGetReference | liaison/base.py:34-36 | `get "$p"` raises AssertionError when the part of `"$" + p` before the first dot is not a key |
| BaseProperties.ProcessGetName | liaison/base.py:34-36 | `get n` gives the value stored under `n` |
| BaseProperties.ProcessRunReference | liaison/base.py:34-36 | `run "$p"` propagates the AssertionError and changes nothing when the part of `"$" + p` before the first dot is not a key |
| BaseProperties.ProcessTry | liaison/base.py:34-36 | `try` returns attempt's record and raises only non-`Exception` errors |
| BaseProperties.ProcessPing | liaison/base.py:31-36 | `{command: "ping"}` answers "pong" and changes nothing |
| BaseProperties.StoreThenGet | liaison/base.py:34-36 | after storing under a Python name `n`, `get n` gives the value and `get "$" + n` raises AssertionError |

## Findings

| source | as written | input that shows it | evidently intended | confidence | as-written member | corrected member |
|---|---|---|---|---|---|---|
| liaison/companion/companion.py:202 | `"__name__" in element` tests containment. It raises TypeError on functions, classes and modules, and finds no attribute on strings, lists or dicts. | `register(None, "os:getcwd")` raises TypeError | `hasattr(element, "__name__")`: the name is inferred from `__name__` | not executed | CompanionProperties.RegisterNoneAsWritten | CompanionProperties.RegisterNoneInfers |

`Companions.RegisterInAsWritten` models the code as written, and `CompanionProperties.RegisterAsWrittenNeedsName` shows that it never infers a name. The class and the rest of the model use `Companions.RegisterIn`, whose inference reads the attribute; `CompanionProperties.RegisterEffect` states what it does.

## Left out

- `liaison/websocket/websocket.py` is not part of this model: the asyncio server, the message loop, the start and stop markers and the JSON encoder are I/O and runtime reflection.
- Reading `command.schema.json` from disk and `jsonschema.validate` are left out; the schema check is the parameter `valid`.
- `importlib` is the host's module table. Import side effects are not modelled. Neither are import errors other than a missing module, nor modules that exist only as attributes of a package.
- Companions.EvalPath: reports SyntaxError for any piece of the target, split at dots, that is not a Python name. Python evaluates such a target as an expression: `x.f()` calls, `x.a[0]` indexes, `1` is a number. `get`, `run`, `try` and `init` pass their target to `resolve` unchecked and can send any of these.
- Companions.Companion.Register: the class, and the `register` command through `Base.DispatchIn`, use the intended name inference (`RegisterIn`). As written, `register(None, target)` raises instead; `Companions.RegisterInAsWritten` models that, as "## Findings" records.
- Values.GetAttr: only modelled objects carry attributes. Attributes of strings, lists, dicts and numbers, and of the live companion and liaison objects, are reported as AttributeError.
- Companions.Contains: objects that define `__contains__` or `__iter__` are treated as non-containers.
- Values.Hashable: Python's `True == 1 == 1.0` key equality, and unhashable instances of user classes, are not modelled.
- Floats, tuples, sets and bytes are not among the modelled values.
- Host.invoke is a function of the callee and its arguments. A callee that writes into the companion's namespace, or that has other effects, is not modelled.
- Grammar.WordChar: `\w` is taken as ASCII letters, digits and `_`. Python's `\w` on `str` also matches Unicode letters and digits.
- Running under `python -O` removes the `assert` in `resolve_import`; the model keeps the check.
- The content of exceptions and tracebacks is reduced to an error kind.
- `BaseLiaison.messages` is only created empty here. The transport, outside this model, appends to it.
