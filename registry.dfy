/** The console's command registry: the module-level `commands` dictionary
    of isf/console/console.py and `register_command`, which adds a command
    under its name and under each of its aliases.
 */
module Registry {

  datatype Option<+T> = None | Some(value: T)

  /** A console command as the registry sees it. What `run` does belongs to
      each command class and is not modelled; the dispatcher only needs the
      name, the aliases (a list, in declaration order, duplicates allowed) and
      the minimum number of arguments. */
  datatype Command = Command(name: string, aliases: seq<string>, minArgsNumber: int)

  /** Every key under which `register_command` files `c`. */
  function Keys(c: Command): (ks: set<string>)
    ensures c.name in ks
    ensures forall a :: a in c.aliases ==> a in ks
    ensures forall k :: k in ks ==> k == c.name || k in c.aliases
  {
    {c.name} + set a | a in c.aliases
  }

  /** Result of a registration: the new dictionary, or the `ValueError`
      "Command '<key>' already registered" for the first clashing key. */
  datatype Registration =
    | Registered(commands: map<string, Command>)
    | AlreadyRegistered(key: string)

  /** The first of `keys`, in order, that is already in `m`. */
  function FirstClash(m: map<string, Command>, keys: seq<string>): (r: Option<string>)
    ensures r.None? <==> forall i :: 0 <= i < |keys| ==> keys[i] !in m
    ensures r.Some? ==> exists i :: 0 <= i < |keys| && keys[i] == r.value
                                    && r.value in m
                                    && forall j :: 0 <= j < i ==> keys[j] !in m
  {
    if keys == [] then None
    else if keys[0] in m then Some(keys[0])
    else FirstClash(m, keys[1..])
  }

  /** `register_command` on a dictionary value: every key is checked (the
      name first, then the aliases in order) before any is written. */
  function Insert(m: map<string, Command>, c: Command): (r: Registration)
  {
    match FirstClash(m, [c.name] + c.aliases)
    case Some(k) => AlreadyRegistered(k)
    case None => Registered(m + Bind(Keys(c), c))
  }

  /** The dictionary entries filing `c` under each of `ks`. */
  function Bind(ks: set<string>, c: Command): (b: map<string, Command>)
    ensures b.Keys == ks && forall k :: k in b ==> b[k] == c
  {
    map k | k in ks :: c
  }

  lemma BindOne(m: map<string, Command>, k: string, c: Command)
    ensures m + Bind({k}, c) == m[k := c]
  {
  }

  /** Filing one more key is one more dictionary write. */
  lemma BindAdd(m: map<string, Command>, ks: set<string>, k: string, c: Command)
    ensures m + Bind(ks + {k}, c) == (m + Bind(ks, c))[k := c]
  {
  }

  /** The registration fails exactly when the name or some alias is already a
      key, and then it names such a key; the name is reported first. */
  lemma InsertRejects(m: map<string, Command>, c: Command)
    ensures Insert(m, c).AlreadyRegistered? <==> exists k :: k in Keys(c) && k in m
    ensures Insert(m, c).AlreadyRegistered? ==> Insert(m, c).key in Keys(c) && Insert(m, c).key in m
    ensures c.name in m ==> Insert(m, c) == AlreadyRegistered(c.name)
  {
    var keys := [c.name] + c.aliases;
    var r := FirstClash(m, keys);
    if r.None? {
      forall k | k in Keys(c) ensures k !in m {
        if k != c.name {
          var i :| 0 <= i < |c.aliases| && c.aliases[i] == k;
          assert keys[i + 1] == k;
        }
      }
    } else {
      var i :| 0 <= i < |keys| && keys[i] == r.value && r.value in m;
      assert i == 0 || keys[i] == c.aliases[i - 1];
    }
  }

  /** After a successful registration the name and every alias resolve to
      the command, every key present before keeps its command, and no other
      key appears. */
  lemma InsertBinds(m: map<string, Command>, c: Command)
    requires Insert(m, c).Registered?
    ensures var m' := Insert(m, c).commands;
            && m'.Keys == m.Keys + Keys(c)
            && (forall k :: k in Keys(c) ==> m'[k] == c)
            && (forall k :: k in m ==> m'[k] == m[k])
  {
    InsertRejects(m, c);
  }

  /** Registry consistency: every key belongs to the command filed under it,
      and every key of a registered command is filed, under that command. A
      registered command is therefore reachable under all its keys or none. */
  ghost predicate Coherent(m: map<string, Command>) {
    forall k :: k in m ==> k in Keys(m[k]) && forall a :: a in Keys(m[k]) ==> a in m && m[a] == m[k]
  }

  /** Registration keeps the registry coherent, whether it succeeds or not. */
  lemma InsertKeepsCoherent(m: map<string, Command>, c: Command)
    requires Coherent(m)
    ensures Insert(m, c).Registered? ==> Coherent(Insert(m, c).commands)
  {
    if Insert(m, c).Registered? {
      InsertRejects(m, c);
      var m' := Insert(m, c).commands;
      forall k | k in m'
        ensures k in Keys(m'[k]) && forall a :: a in Keys(m'[k]) ==> a in m' && m'[a] == m'[k]
      {
        if k in m {
          assert m'[k] == m[k];
          forall a | a in Keys(m[k]) ensures a in m' && m'[a] == m'[k] {
            assert a in m;
          }
        }
      }
    }
  }

  /** Aliases that only repeat the name are not rejected: the checks look
      only at keys present before the call, so the command is filed under
      its name alone. */
  lemma AliasesRepeatingNameAccepted(m: map<string, Command>, c: Command)
    requires c.name !in m
    requires forall a :: a in c.aliases ==> a == c.name
    ensures Insert(m, c) == Registered(m[c.name := c])
  {
    InsertRejects(m, c);
    assert Keys(c) == {c.name};
    BindOne(m, c.name, c);
  }

  /** An alias listed twice is not rejected either, as long as no key of the
      command is present before the call. */
  lemma RepeatedAliasAccepted(m: map<string, Command>, c: Command, i: nat, j: nat)
    requires i < j < |c.aliases| && c.aliases[i] == c.aliases[j]
    requires forall k :: k in Keys(c) ==> k !in m
    ensures Insert(m, c).Registered?
  {
    InsertRejects(m, c);
  }

  /** The registry object: the dictionary that `register_command` updates in
      place and that the console loop reads. */
  class CommandRegistry {
    var commands: map<string, Command>

    constructor ()
      ensures commands == map[]
    {
      commands := map[];
    }

    /** The checks of `register_command`: the name first, then each alias in
        order, against the keys present; the first key found present. */
    method FindClash(cmd: Command) returns (clash: Option<string>)
      ensures clash == FirstClash(commands, [cmd.name] + cmd.aliases)
    {
      ghost var keys := [cmd.name] + cmd.aliases;
      if cmd.name in commands {
        return Some(cmd.name);
      }
      for i := 0 to |cmd.aliases|
        invariant forall j :: 0 <= j <= i ==> keys[j] !in commands
      {
        if cmd.aliases[i] in commands {
          FirstClashAt(commands, keys, i + 1);
          return Some(cmd.aliases[i]);
        }
      }
      return None;
    }

    /** `register_command(cmd)`. Checks the name, then each alias in order,
        against the keys present; on a clash returns the clashing key (the
        `ValueError`) with the dictionary untouched. Otherwise writes the name
        and then each alias. */
    method Register(cmd: Command) returns (clash: Option<string>)
      modifies this
      ensures Insert(old(commands), cmd).AlreadyRegistered? ==>
                clash == Some(Insert(old(commands), cmd).key) && commands == old(commands)
      ensures Insert(old(commands), cmd).Registered? ==>
                clash == None && commands == Insert(old(commands), cmd).commands
      ensures Coherent(old(commands)) ==> Coherent(commands)
    {
      clash := FindClash(cmd);
      if clash.Some? {
        return;
      }
      ghost var before := commands;
      WriteKeys(cmd);
      if Coherent(before) { InsertKeepsCoherent(before, cmd); }
    }

    /** The writes of `register_command`: the name, then each alias. */
    method WriteKeys(cmd: Command)
      modifies this
      ensures commands == old(commands) + Bind(Keys(cmd), cmd)
    {
      ghost var before := commands;
      BindOne(before, cmd.name, cmd);
      assert KeysUpTo(cmd, 0) == {cmd.name};
      commands := commands[cmd.name := cmd];
      for i := 0 to |cmd.aliases|
        invariant commands == before + Bind(KeysUpTo(cmd, i), cmd)
      {
        KeysUpToStep(cmd, i);
        BindAdd(before, KeysUpTo(cmd, i), cmd.aliases[i], cmd);
        commands := commands[cmd.aliases[i] := cmd];
      }
      KeysUpToAll(cmd);
    }
  }

  /** The keys written once the name and the first `i` aliases are filed. */
  function KeysUpTo(c: Command, i: nat): set<string>
    requires i <= |c.aliases|
  {
    {c.name} + set a | a in c.aliases[..i]
  }

  lemma KeysUpToStep(c: Command, i: nat)
    requires i < |c.aliases|
    ensures KeysUpTo(c, i + 1) == KeysUpTo(c, i) + {c.aliases[i]}
  {
    assert c.aliases[..i + 1] == c.aliases[..i] + [c.aliases[i]];
  }

  lemma KeysUpToAll(c: Command)
    ensures KeysUpTo(c, |c.aliases|) == Keys(c)
  {
    assert c.aliases[..|c.aliases|] == c.aliases;
  }

  /** The first clash is at position `i` when `keys[i]` is present and no
      earlier key is. */
  lemma {:induction false} FirstClashAt(m: map<string, Command>, keys: seq<string>, i: nat)
    requires i < |keys| && keys[i] in m
    requires forall j :: 0 <= j < i ==> keys[j] !in m
    ensures FirstClash(m, keys) == Some(keys[i])
  {
    if i > 0 {
      FirstClashAt(m, keys[1..], i - 1);
    }
  }
}
