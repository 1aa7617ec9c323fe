/** The group part of the key table (config.py:143-167): nine groups named
    "1" .. "9", and for each a key to show it and a key to send the focused
    window to it. */
module Keybindings {

  /** The super key, `mod = "mod4"`. */
  const Mod: string := "mod4"
  const Shift: string := "shift"

  /** The characters the group names are taken from. */
  const GroupNames: string := "123456789"

  datatype Group = Group(name: string)

  /** The `lazy` commands a key can be bound to, as opaque values. */
  datatype Action =
    | ToScreen(group: string)                   // lazy.group[name].toscreen()
    | ToGroup(group: string, switchGroup: bool) // lazy.window.togroup(name, switch_group=...)
    | Command(command: string)                  // any other lazy call or spawn

  /** `Key(modifiers, key, action, desc=...)`. */
  datatype Key = Key(modifiers: seq<string>, key: string, action: Action, desc: string)

  /** `groups = [Group(i) for i in "123456789"]`: nine groups, the k-th
      named by the digit k + 1. */
  function Groups(): (gs: seq<Group>)
    ensures |gs| == 9
    ensures forall k :: 0 <= k < |gs| ==> gs[k].name == [('1' as int + k) as char]
  {
    seq(|GroupNames|, k requires 0 <= k < |GroupNames| => Group([GroupNames[k]]))
  }

  /** mod + name: show the group on the current screen. */
  function SwitchKey(name: string): (r: Key)
    ensures r.modifiers == [Mod] && r.key == name
    ensures r.action == ToScreen(name) && r.desc == "Switch to group " + name
  {
    Key([Mod], name, ToScreen(name), "Switch to group " + name)
  }

  /** mod + shift + name: move the focused window to the group, staying put. */
  function MoveKey(name: string): (r: Key)
    ensures r.modifiers == [Mod, Shift] && r.key == name
    ensures r.action == ToGroup(name, false)
    ensures r.desc == "Switch to & move focused window to group " + name
  {
    Key([Mod, Shift], name, ToGroup(name, false), "Switch to & move focused window to group " + name)
  }

  /** The bindings the loop of config.py:145-167 appends for `groups`, in
      order: for each group, its switch key and then its move key. */
  function GroupKeys(groups: seq<Group>): (r: seq<Key>)
    ensures |r| == 2 * |groups|
    ensures forall k :: 0 <= k < |groups| ==>
              r[2 * k] == SwitchKey(groups[k].name) && r[2 * k + 1] == MoveKey(groups[k].name)
  {
    if groups == [] then []
    else
      var last := groups[|groups| - 1];
      GroupKeys(groups[..|groups| - 1]) + [SwitchKey(last.name), MoveKey(last.name)]
  }

  /** Distinct group names give distinct key chords: no two appended bindings
      share both modifiers and key. */
  lemma {:induction false} GroupKeysDistinctChords(groups: seq<Group>, a: nat, b: nat)
    requires forall i, j :: 0 <= i < j < |groups| ==> groups[i].name != groups[j].name
    requires a < b < 2 * |groups|
    ensures GroupKeys(groups)[a].modifiers != GroupKeys(groups)[b].modifiers ||
            GroupKeys(groups)[a].key != GroupKeys(groups)[b].key
  {
    var r := GroupKeys(groups);
    var i, j := a / 2, b / 2;
    assert r[a] == if a == 2 * i then SwitchKey(groups[i].name) else MoveKey(groups[i].name);
    assert r[b] == if b == 2 * j then SwitchKey(groups[j].name) else MoveKey(groups[j].name);
    if i == j {
      assert r[a].modifiers == [Mod] && r[b].modifiers == [Mod, Shift];
    } else {
      assert i < j;
      assert r[a].key == groups[i].name && r[b].key == groups[j].name;
    }
  }

  /** The module-level configuration whose `keys` list the loop extends. */
  class Config {
    var keys: seq<Key>

    constructor (initial: seq<Key>)
      ensures keys == initial
    {
      keys := initial;
    }

    /** `for i in groups: keys.extend([...])`, config.py:145-167: the
        bindings already present stay as a prefix and the group bindings
        follow. */
    method ExtendGroupKeys(groups: seq<Group>)
      modifies this
      ensures keys == old(keys) + GroupKeys(groups)
    {
      for n := 0 to |groups|
        invariant keys == old(keys) + GroupKeys(groups[..n])
      {
        assert groups[..n + 1][..n] == groups[..n];
        keys := keys + [SwitchKey(groups[n].name), MoveKey(groups[n].name)];
      }
      assert groups[..|groups|] == groups;
    }
  }

  /** The configuration as written: after the loop over the nine groups the
      key table has gained exactly 18 bindings, mod + k and mod + shift + k
      for each digit k from 1 to 9. */
  lemma ConfiguredGroupKeys(old_keys: seq<Key>)
    ensures |old_keys + GroupKeys(Groups())| == |old_keys| + 18
    ensures forall k :: 0 <= k < 9 ==>
              (old_keys + GroupKeys(Groups()))[|old_keys| + 2 * k] == SwitchKey([('1' as int + k) as char]) &&
              (old_keys + GroupKeys(Groups()))[|old_keys| + 2 * k + 1] == MoveKey([('1' as int + k) as char])
  {
  }

  /** The names of the configured groups are pairwise distinct. */
  lemma GroupNamesDistinct()
    ensures forall i, j :: 0 <= i < j < |Groups()| ==> Groups()[i].name != Groups()[j].name
  {
  }

  /** No two of the 18 bindings the configuration appends for its groups
      share both modifiers and key. */
  lemma ConfiguredChordsDistinct(a: nat, b: nat)
    requires a < b < 18
    ensures GroupKeys(Groups())[a].modifiers != GroupKeys(Groups())[b].modifiers ||
            GroupKeys(Groups())[a].key != GroupKeys(Groups())[b].key
  {
    GroupNamesDistinct();
    GroupKeysDistinctChords(Groups(), a, b);
  }
}
