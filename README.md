# fabtools OpenVZ operations in Dafny

fabtools' `openvz` module manages OpenVZ containers on a remote host. Most
operations build one `vzctl` command line and hand it to Fabric's `sudo`;
`download_template` runs `wget`, and `list_ctids` (behind `get_available_ctid`)
runs `vzlist -a -1`. The logic inside the module is string work:

- the **option-to-flag serialiser** `_expand_args` turns keyword arguments into
  `vzctl` flags;
- **command assembly** in `_vzctl`, `exec2` and the per-verb wrappers (`create`,
  `destroy`, `set`, `start`, `stop`, `restart`, `status`) adds each verb's
  default options;
- the **status predicate** `running` reads field 4 of `vzctl status` output;
- the **CTID allocator** `get_available_ctid` picks the next free container id;
- `download_template` chooses a **default template URL**.

This project models that logic and proves what it promises. The remote
executor is not modelled. A wrapper here returns the `_vzctl` call it makes
(verb, target and keyword arguments, as the datatype `Call`). `CommandLine`
turns a call into the string that would reach `sudo`. Any text a remote
command prints is a parameter.

Files:

- `text.dfy` (module `Text`) holds the Python string built-ins the module
  relies on: `' '.join`, `str.split(' ')`, `'%s' % n` for an integer, and
  `int()` of such a rendering, with their round trips.
- `operations.dfy` (module `Operations`) holds the model of
  `fabtools/openvz/operations.py`.

`ExpandArgs` is imperative, as `_expand_args` is: it appends to a list in a
loop, with a nested loop for list values, and then joins the list. It is proved
against the specification function `ExpandedArgs`. The properties of the
serialiser are lemmas about that function. `Vzctl` is a method too: it
composes `ExpandArgs` with the format of `_vzctl`, and is proved equal to the
function `CommandLine`. The rest are functions, including `AvailableCtid`,
whose `if` statement becomes an `if` expression.

Keyword arguments are an ordered sequence of `Opt(name, value)`, in the
order the dictionary enumerates them. Values are classified the way
`_expand_args` tests them: `Bool(b)`, `Null` (Python `None`), `List(elems)` (a
list or tuple), or `Scalar(text)` (anything else). `List` elements and `Scalar`
values are given already rendered by `%s`. They are inserted verbatim: nothing
is quoted or escaped.

`running` splits on the single character `' '` (operations.py:69), not on runs
of whitespace, so consecutive spaces give empty fields. The model does the same.

## Model

| member | source | states |
|---|---|---|
| `Text.Split` | fabtools/openvz/operations.py:69 | `s.split(' ')` has one field more than `s` has separators; no field contains the separator; joining the fields with it gives back `s` |
| `Text.SplitPrefix` | fabtools/openvz/operations.py:69 | a separator-free prefix followed by the separator is the first field, and the rest splits independently |
| `Text.SplitJoin` | fabtools/openvz/operations.py:69 | splitting a join of separator-free fields gives back those fields (Split and Join are inverse) |
| `Text.Join` | fabtools/openvz/operations.py:103 | `' '.join` of no parts is empty; the join of any parts starts with the first part |
| `Text.JoinAppend` | fabtools/openvz/operations.py:103 | joining two non-empty lists puts exactly one separator between their joins |
| `Text.NatToString` | fabtools/openvz/operations.py:89 | the `%s` rendering of a natural number is all decimal digits, starts with `0` only for zero, and has no leading zero |
| `Text.IntToString` | fabtools/openvz/operations.py:89 | the `%s` rendering of an integer CTID is non-empty and contains no space; it starts with `-` exactly for a negative number, is otherwise all decimal digits, and has no leading zero |
| `Text.IntToStringRoundTrip` | fabtools/openvz/operations.py:89 | `int(str(n)) == n`: the rendering of a CTID loses nothing |
| `Operations.Render` | fabtools/openvz/operations.py:84-89 | a numeric target renders without spaces, and the rendering parses back to the CTID; a container name is inserted unchanged |
| `Operations.ElemTokens` | fabtools/openvz/operations.py:98-100 | a list value `[e0, e1, ...]` under key `k` contributes one token `--k ei` per element, in element order |
| `Operations.OptTokens` | fabtools/openvz/operations.py:95-102 | one keyword argument yields one token if it is `True` or a scalar, one per element if it is a list or tuple, and none if it is `False`, `None` or empty; its tokens include the bare `--k` exactly when it is `True` |
| `Operations.Tokens` | fabtools/openvz/operations.py:93-102 | the `args` list has one entry per `True` or scalar option and one per list element |
| `Operations.ExpandedArgs` | fabtools/openvz/operations.py:92-103 | the serialised string is empty exactly when every option is `False`, `None` or an empty list or tuple (in particular, when there are no options) |
| `Operations.ExpandArgs` | fabtools/openvz/operations.py:92-103 | the loop that appends tokens option by option, element by element, and joins them returns exactly `ExpandedArgs(kwargs)` |
| `Operations.ElemTokensSnoc` | fabtools/openvz/operations.py:99-100 | one more list element appends exactly its own token `--k e` |
| `Operations.TokensSnoc` | fabtools/openvz/operations.py:94-102 | processing one more option appends exactly that option's tokens |
| `Operations.TokensAppend` | fabtools/openvz/operations.py:94 | the tokens of `a + b` are the tokens of `a` followed by those of `b` |
| `Operations.TokensCons` | fabtools/openvz/operations.py:94 | the first option's tokens come before those of the options after it |
| `Operations.TokensContain` | fabtools/openvz/operations.py:95-102 | wherever it stands, an option `k=True` puts `--k` among the tokens, and a scalar option `k=v` puts `--k v` there |
| `Operations.TokensAreFlags` | fabtools/openvz/operations.py:95-102 | every token produced starts with `--` |
| `Operations.ExpandAppend` | fabtools/openvz/operations.py:93-103 | serialising `a + b` is serialising `a`, then `b`, with one space between them when both produce flags: earlier options come first |
| `Operations.ExpandSingle` | fabtools/openvz/operations.py:95-102 | one option `k=True` gives exactly `--k`; `False`, `None` and `[]` give `""`; a scalar `v` gives `--k v`; a list gives its element tokens joined by spaces |
| `Operations.TokensInContext` | fabtools/openvz/operations.py:94-102 | an option placed between others contributes exactly its own tokens, at its own position |
| `Operations.OmittedInContext` | fabtools/openvz/operations.py:95-101 | inserting a `False`, `None` or `[]` option anywhere leaves the serialised string unchanged |
| `Operations.TokensEmpty` | fabtools/openvz/operations.py:93-102 | no tokens are produced exactly when every option is `False`, `None` or empty |
| `Operations.OptFlag` | fabtools/openvz/operations.py:95-102 | one option yields the bare token `--k` exactly when it is `k=True`; list and scalar tokens always carry a value |
| `Operations.FlagIff` | fabtools/openvz/operations.py:92-103 | for a space-free key `k`, the bare flag `--k` is produced exactly when some option is `k=True` |
| `Operations.FlagAppend` | fabtools/openvz/operations.py:94 | `--k` comes from `named + extra` exactly when it comes from `named` or from `extra` |
| `Operations.FlagAt` | fabtools/openvz/operations.py:95-97 | when only one option is named `k`, `--k` appears exactly when that option is `True` |
| `Operations.CommandLine` | fabtools/openvz/operations.py:89 | a call with no flags yields a command line that ends in a space |
| `Operations.Vzctl` | fabtools/openvz/operations.py:87-89 | serialising the options with `ExpandArgs`, then formatting, yields exactly `CommandLine(call)` |
| `Operations.ParseLine` | fabtools/openvz/operations.py:84-89 | `vzctl <verb> <target> <rest>` splits back into its verb, target and rest when verb and target are space-free |
| `Operations.CommandRoundTrip` | fabtools/openvz/operations.py:89 | a command line splits back into `vzctl`, the verb, the target and the serialised options |
| `Operations.Create` | fabtools/openvz/operations.py:11-17 | `create` calls `vzctl create`; its tokens are those of `ostemplate`, `config`, `private`, `root`, `ipadd` and `hostname`, each under its own name and in that order, followed by those of the extra keyword arguments; with the six left at `None`, only the extra keyword arguments reach the flags |
| `Operations.Destroy` | fabtools/openvz/operations.py:20-24 | `destroy` runs `vzctl destroy <id> `, with a trailing space and no flags |
| `Operations.Set` | fabtools/openvz/operations.py:27-31 | `set` carries the bare `--save` exactly when `save` is `True` (its default) or an extra option asks for it; its tokens are those of `save` followed by exactly those of the extra keyword arguments (the parameters being set) |
| `Operations.Start` | fabtools/openvz/operations.py:34-40 | `start` carries `--wait` or `--force` exactly when that option is `True`; both default to `False`; its tokens are those of `wait`, then `force`, then exactly those of the extra keyword arguments |
| `Operations.Stop` | fabtools/openvz/operations.py:43-47 | `stop` carries `--fast` exactly when `fast` is `True`; it defaults to `False`; its tokens are those of `fast` followed by exactly those of the extra keyword arguments |
| `Operations.Restart` | fabtools/openvz/operations.py:50-54 | `restart` carries `--wait` by default (it defaults to `True`), and `--force` and `--fast` only when asked; its tokens are those of `wait`, `force` and `fast`, in that order, then exactly those of the extra keyword arguments |
| `Operations.Status` | fabtools/openvz/operations.py:57-62 | `status` runs `vzctl status <id> `, with a trailing space and no flags |
| `Operations.Exec2` | fabtools/openvz/operations.py:80-84 | `vzctl exec2 <id> <command>` splits back into exec2, the target and the command text, which is passed through verbatim |
| `Operations.Render101` | fabtools/openvz/operations.py:89 | CTID 101 renders as `101` |
| `Operations.ForceArgs` | fabtools/openvz/operations.py:34-40 | `wait=False, force=True` serialises to `--force` |
| `Operations.ListExample` | fabtools/openvz/operations.py:98-100 | `x=['a', 'b']` serialises to `--x a --x b` |
| `Operations.TwoScalars` | fabtools/openvz/operations.py:101-103 | two scalar options serialise as `--a x --b y` |
| `Operations.CreateTokens` | fabtools/openvz/operations.py:11-17 | with only `ostemplate` and `hostname` set, only those two options yield tokens, `ostemplate` first |
| `Operations.CreateArgs` | fabtools/openvz/operations.py:11-17 | `ostemplate='debian', hostname='web'` serialise to `--ostemplate debian --hostname web` |
| `Operations.CreateLine` | fabtools/openvz/operations.py:89 | a `create` call on CTID 101 runs `vzctl create 101 ` followed by its serialised options |
| `Operations.CreateExample` | fabtools/openvz/operations.py:11-17 | `create(101, ostemplate='debian', hostname='web')` runs exactly `vzctl create 101 --ostemplate debian --hostname web` |
| `Operations.StartForceExample` | fabtools/openvz/operations.py:34-40 | `start(101, force=True)` runs exactly `vzctl start 101 --force` |
| `Operations.NameText` | fabtools/openvz/operations.py:111 | `'%s' % name` inserts a string name as it is; the text `None` arises exactly from `None` or from the name `"None"` |
| `Operations.TemplateUrl` | fabtools/openvz/operations.py:106-111 | an explicit URL is used as given; otherwise the URL is the precreated-template URL, and the template name can be read back from it (`None` reads back as `None`) |
| `Operations.Running` | fabtools/openvz/operations.py:65-69 | the status text is rejected (Python's IndexError) exactly when it has fewer than four spaces |
| `Operations.RunningFields` | fabtools/openvz/operations.py:69 | for text made of space-free fields joined by single spaces: running exactly when there are at least five fields and field 4 is `running`; rejected when there are fewer than five |
| `Operations.RunningExamples` | fabtools/openvz/operations.py:69 | `CTID 101 exist mounted running` is running; `CTID 101 exist unmounted down` is not |
| `Operations.RunningEdgeCases` | fabtools/openvz/operations.py:69 | with a doubled space the empty field counts towards index 4; text with three fields is rejected |
| `Operations.Max` | fabtools/openvz/operations.py:132 | `max` of a non-empty list is an element of it and at least every element |
| `Operations.AvailableCtid` | fabtools/openvz/operations.py:126-134 | no CTIDs in use gives 1000; otherwise the result is one more than a CTID in use and larger than all of them; the result is never in use |
| `Operations.AvailableCtidExamples` | fabtools/openvz/operations.py:130-134 | `[3, 7, 5]` gives 8; `[]` gives 1000 |

## Left out

- Remote execution is not modelled: `sudo`, `settings(warn_only=...)`, `hide(...)` and `cd(...)` belong to Fabric, which is not part of this model. Each operation's result is the command string, and command output is a parameter. This leaves out the failure-tolerance scope of `status` and `exists`.
- `exists` is not modelled: it returns only the executor's success flag, so there is no logic to model.
- `download_template`'s `wget --progress=dot "<url>"` call, and the directory it runs in, are not modelled. Only the URL choice is.
- `list_ctids` is not modelled: it parses `vzlist -a -1` output with Python's `int()`, which accepts surrounding whitespace and signs. The allocator takes the CTIDs as a list of integers.
- `AvailableCtid` follows Python 2, where `map` returns a list and an empty one is falsy. Under Python 3, `map` returns an object that is always truthy, so an empty listing would reach `max()` and raise.
- Keyword-argument order: the serialiser works on any sequence. The wrappers put their named options first, in keyword order, then the extra keyword arguments. That is the dictionary order from Python 3.6 on; in Python 2 the order depends on hashing. So the order-dependent clauses hold only under insertion order: the `Tokens(call.kwargs) == …` ensures of `Create`, `Set`, `Start`, `Stop` and `Restart`, and `CreateTokens`, `CreateArgs` and `CreateExample`, where hash order could give `--hostname web --ostemplate debian`. `StartForceExample` holds under any order, since `wait=False` contributes nothing.
- `_vzctl(command, ctid_or_name, **kwargs)` (operations.py:87) raises Python's TypeError when an extra keyword argument is itself named `command` or `ctid_or_name`, since that name is then given twice. Every wrapper can pass such an argument on (operations.py:16-17, 31, 40, 47, 54). The model does not reject these names: `CommandLine`, `Vzctl` and the wrappers serialise them as ordinary flags such as `--command x`.
- Python guarantees that a wrapper's `**kwargs` never repeats one of its named parameters. The model does not require this. So `Set`, `Start`, `Stop` and `Restart` mention, for example, `HasFlag(extra, "save")` as a further way to get the flag; under Python's guarantee that term is false.
- `%s` rendering of arbitrary Python values (numbers, `True` inside a list, nested tuples) is not modelled. `Scalar` values and `List` elements arrive already rendered. Only integer CTIDs are rendered here, by `IntToString`.
- Shell quoting and escaping: the source performs none, and the model performs none. A target name containing spaces is passed through, and the round-trip lemmas `CommandRoundTrip`, `ParseLine` and `Exec2` then do not apply (their condition excludes it).
- Trimming of the captured output: `Running` sees exactly the text it is given. Whether a trailing newline reaches `split` depends on Fabric, which is not modelled.
- The race between concurrent callers of `get_available_ctid` is a property of the remote host and is not modelled.
