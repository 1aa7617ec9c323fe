# qtile configuration: window swallowing and group keys

A model of the two parts of a personal qtile configuration (`config.py`) that
have behaviour of their own.

**Window swallowing** (module `Swallowing`, file `swallowing.dfy`). When a
window appears (`client_new`), the hook builds an index from process id to
window over all open windows. It then walks the new window's process ancestry:
the direct parent process and at most four further ancestors. It stops at a pid
of 0. At the first ancestor pid that belongs to an open window, that window is
minimized, recorded as the new window's `parent`, and the walk stops. When a
window is killed (`client_killed`), its recorded parent, if any, is shown
again.

- qtile's `windows_map` is the field `windowsMap: map<Wid, Client>` of class
  `Qtile`. A `Client` holds a pid, the `minimized` flag, and the `parent`
  attribute as `Option<Wid>`; `None` stands for "attribute not set" (the
  `hasattr` test).
- The window passed to the hook is a value. `Swallow` returns its record as
  the hook leaves it, together with a `Stop` value that says which exit of the
  loop was taken. qtile fires `client_new` before the new window enters
  `windows_map`, so the new window is not part of the table it searches.
- psutil is a partial map `pid -> ppid` (`ProcessTable`). A pid that is not a
  key is a vanished process, for which psutil raises. The raise aborts the
  hook; this is the `LookupFailed` stop, and the table is unchanged.
- `Walk` is the loop as a function. `Ancestor(procs, w, d)` is the ancestor
  at depth `d`. The lemmas characterise the outcome by the first tested
  ancestor that the walk cannot move past.
- On the fifth iteration the loop looks up one more parent and never uses the
  result. That lookup can still raise: see `SwallowAbortsOnLookupFailure`
  with depth 6.
- The pid index of `config.py:334` is built by `PidIndex`, a loop over the map
  in arbitrary order. When several windows share a pid, it is only known that
  the index picks one of them.

Two behaviours of the code to note:

- A failed process lookup aborts the hook; it is not turned into a graceful stop.
- `_unswallow` does not clear the `parent` attribute, so a second kill of the
  same window sets `minimized = False` again. The state is the same either way
  (`UnswallowIdempotent`).

**Group keys** (module `Keybindings`, file `keybindings.dfy`). Nine groups are
named "1" .. "9". A loop extends the module-level `keys` list: for each group,
in order, it adds `mod4 + name` (show the group) and then
`mod4 + shift + name` (move the focused window there without following it).
The list is the field `keys` of class `Config`. The `lazy` commands are opaque
`Action` values.

## Model

| member | source | states |
|---|---|---|
| `Swallowing.PidIndex` | config.py:334 | every open window's pid is a key of the index; every key maps to an open window whose pid is that key |
| `Swallowing.Qtile.Swallow` | config.py:330-343 | the outcome is the bounded walk from the window's pid over the open windows' pids; on a match exactly one window changes: the window with the matched pid becomes minimized, and the new window's record gains it as parent; on every other outcome (0 reached, five ancestors tested, lookup failure) the table and the new window are unchanged |
| `Swallowing.WalkMatchedIff` | config.py:335-343 | the walk ends by matching `p` if and only if `p` is, within the remaining steps, an open window's nonzero pid, and every ancestor before it was nonzero, not an open window's pid, and could be looked up |
| `Swallowing.SwallowMatchIff` | config.py:333-343 | `_swallow` picks `p` if and only if, at some depth from 1 to 5, `p` is the first tested ancestor of the new window's pid that is not passed, and `p` belongs to an open window (nearest ancestor wins) |
| `Swallowing.NoSwallowBeyondMaxDepth` | config.py:335-343 | a pid that is not the new window's ancestor at any depth from 1 to 5 is never matched |
| `Swallowing.SwallowStopsAtZero` | config.py:336-337 | an ancestor pid of 0, reached at depths 1 to 5 before any match, ends the walk with the falsy stop, so nothing is minimized |
| `Swallowing.SwallowAbortsOnLookupFailure` | config.py:333-343 | a process lookup that fails before any match, at any of the six lookups (the first at line 333, the unused one of the fifth iteration included), aborts the hook |
| `Swallowing.SwallowExhausted` | config.py:335-343 | when all five tested ancestors are passed and every lookup succeeds, the loop falls through without a match |
| `Swallowing.WalkSkip` | config.py:335-343 | passing the first `k` ancestors costs `k` iterations and continues the walk from the ancestor at depth `k`, or aborts if that lookup fails |
| `Swallowing.Ancestor` | config.py:333-343 | the pid reached by chaining `psutil.Process(p).ppid()` k times; a vanished process (no entry) has no ancestors |
| `Swallowing.AncestorNext` | config.py:343 | the ancestor at depth k + 1 is the parent of the ancestor at depth k, as the loop's reassignment of `ppid` computes; there is none once a lookup has failed |
| `Swallowing.Walk` | config.py:335-343 | the loop as a function; a match is always a nonzero pid of an open window, and `WalkMatchedIff`, `WalkSkip` characterise every outcome |
| `Swallowing.SwallowStop` | config.py:333-343 | the first lookup followed by the loop; a match is a nonzero open-window pid, and the four `Swallow…` lemmas characterise which stop is reached |
| `Swallowing.Unswallowed` | config.py:345-348 | after `_unswallow` the same windows are open; the recorded parent, if any and still open, is no longer minimized; every other window is unchanged; with no parent the table is unchanged |
| `Swallowing.Qtile.Unswallow` | config.py:345-348 | the window table after the hook is `Unswallowed` of the table before |
| `Swallowing.UnswallowIdempotent` | config.py:345-348 | killing the same window twice has the same effect as killing it once |
| `Swallowing.SwallowThenUnswallow` | config.py:338-348 | minimizing a visible parent and then killing the child that recorded it restores the window table |
| `Keybindings.Groups` | config.py:143 | there are nine groups, and the k-th is named by the digit k + 1 |
| `Keybindings.SwitchKey` | config.py:149-154 | the switch binding reproduces the source's modifiers `[mod4]`, key `name`, action `lazy.group[name].toscreen()` and desc "Switch to group name" |
| `Keybindings.MoveKey` | config.py:156-161 | the move binding reproduces the modifiers `[mod4, shift]`, key `name`, action `lazy.window.togroup(name, switch_group=False)` and its desc |
| `Keybindings.GroupKeys` | config.py:145-167 | two bindings per group in group order: at position 2k the switch key `[mod4] + name`, at 2k + 1 the move key `[mod4, shift] + name` |
| `Keybindings.Config.ExtendGroupKeys` | config.py:145-167 | the new key table is the old one, unchanged as a prefix, followed by the group bindings |
| `Keybindings.GroupKeysDistinctChords` | config.py:145-167 | with distinct group names, no two appended bindings have the same modifiers and key |
| `Keybindings.GroupNamesDistinct` | config.py:143 | the nine configured group names are pairwise distinct |
| `Keybindings.ConfiguredChordsDistinct` | config.py:143-167 | no two of the 18 bindings appended for the configured groups share both modifiers and key |
| `Keybindings.ConfiguredGroupKeys` | config.py:143-167 | for the nine configured groups exactly 18 bindings are appended, `mod4 + k` then `mod4 + shift + k` for each digit k from 1 to 9 |

## Left out

- The static configuration tables are not modelled: colours, the literal key entries, layouts, widget defaults, screens and bar widgets, mouse bindings, floating rules and the flag settings (config.py:34-141, 169-327, 352-365). They are inert data read by qtile.
- What the `lazy` commands and spawned programs do is not modelled; they are opaque `Action` values.
- What `minimized = True` does on screen is not modelled, and neither is how qtile delivers `client_new` and `client_killed`. Both belong to the window manager's event loop and display I/O.
- The OS process table stands for psutil; `psutil.Process(None)`, used when a window has no `_NET_WM_PID`, is not modelled. Pids are natural numbers, and every window has one.
- `Swallowing.PidIndex`: the Python dict keeps the last window in iteration order for a shared pid. The model promises only some window with that pid, since the order of `windows_map` is not part of the model.
- Swallowing.Unswallowed: Python's `window.parent` holds the parent object itself, while the model stores the parent's window id. If the parent has left `windows_map`, the source writes to the detached object and no open window changes. The model then clears `minimized` on whatever window now holds that id: nothing when the id is free, but a different window if the window system has reused the id for a new client. The model does not capture object identity across id reuse.
- The exception raised by psutil is modelled as the `LookupFailed` stop. Its logging by qtile is not modelled.
- The `desc` strings are kept as plain concatenations. The floating-point `ratio` and the widget format strings are not modelled.
