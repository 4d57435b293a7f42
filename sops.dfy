/** Registering a host's public key in the SOPS configuration
    (encrypted/update-sops-keys.py): the key list lives in the `age` field of
    the first creation rule, as comma-separated text; a new key is appended,
    and the secrets are re-encrypted only when the list changed. */
module SopsKeys {
  import opened Wrappers
  import opened Text
  import opened Exec

  // ---------------------------------------------------------------------
  // The configuration
  // ---------------------------------------------------------------------

  /** One creation rule: its `age` field, if any, and its other string
      fields, which the update never touches. An `age: null` in the YAML
      is not modelled: there `.get("age", "")` gives `None` and the split
      raises `AttributeError`, while `None` here reads as "". */
  datatype Rule = Rule(age: Option<string>, other: map<string, string>)

  /** The loaded `.sops.yaml`: `creation_rules` (`None` when the key is
      missing or null) and the other top-level fields. */
  datatype Config = Config(rules: Option<seq<Rule>>, other: map<string, string>)

  /** `config.get("creation_rules", [{}])`, replaced by `[{}]` when empty. */
  function Rules(config: Config): (rules: seq<Rule>)
    ensures |rules| >= 1
    ensures config.rules.Some? && config.rules.value != [] ==> rules == config.rules.value
  {
    if config.rules.None? || config.rules.value == [] then [Rule(None, map[])]
    else config.rules.value
  }

  /** `rule.get("age", "")`. */
  function AgeText(rule: Rule): string {
    if rule.age.Some? then rule.age.value else ""
  }

  // ---------------------------------------------------------------------
  // The key list
  // ---------------------------------------------------------------------

  /** What a key looks like after extraction: non-empty, no surrounding
      white space, no comma. */
  predicate IsKey(k: string) {
    k != [] && !IsSpace(k[0]) && !IsSpace(k[|k| - 1]) && ',' !in k
  }

  /** Stripping only removes characters. */
  lemma StripInside(s: string, c: char)
    requires c in Strip(s)
    ensures c in s
  {
    var l := LStrip(s);
    assert c in RStrip(l);
    RStripPrefix(l);
    assert c in l;
    LStripSuffix(s);
  }

  /** The stripped, non-empty pieces, in order. */
  function Cleaned(pieces: seq<string>): (keys: seq<string>)
    ensures |keys| <= |pieces|
  {
    if pieces == [] then []
    else
      var k := Strip(pieces[0]);
      (if k != [] then [k] else []) + Cleaned(pieces[1..])
  }

  /** `[k.strip() for k in age.split(",") if k.strip()]`. */
  function KeysOf(age: string): seq<string> {
    Cleaned(Split(age, ','))
  }

  /** Every extracted key is a key. */
  lemma {:induction false} CleanedAreKeys(pieces: seq<string>)
    requires forall p | p in pieces :: ',' !in p
    ensures forall k | k in Cleaned(pieces) :: IsKey(k)
  {
    if pieces != [] {
      CleanedAreKeys(pieces[1..]);
      var k := Strip(pieces[0]);
      StripEnds(pieces[0]);
      if k != [] && ',' in k {
        StripInside(pieces[0], ',');
      }
    }
  }

  lemma KeysOfAreKeys(age: string)
    ensures forall k | k in KeysOf(age) :: IsKey(k)
  {
    CleanedAreKeys(Split(age, ','));
  }

  /** A leading blank does not change the extracted keys. */
  lemma KeysOfBlank(t: string)
    ensures KeysOf(" " + t) == KeysOf(t)
  {
    var parts := Split(t, ',');
    assert (" " + t)[1..] == t;
    assert Split(" " + t, ',') == [" " + parts[0]] + parts[1..];
    assert (" " + parts[0])[1..] == parts[0];
    assert LStrip(" " + parts[0]) == LStrip(parts[0]);
  }

  /** A key on its own reads back as itself. */
  lemma KeyStrips(k: string)
    requires IsKey(k)
    ensures Strip(k) == k
  {
  }

  /** Writing a key list with `", ".join` and reading it back gives the same
      list. */
  lemma {:induction false} KeysOfJoin(keys: seq<string>)
    requires forall k | k in keys :: IsKey(k)
    ensures KeysOf(Join(keys, ", ")) == keys
  {
    if |keys| == 1 {
      KeyStrips(keys[0]);
      assert Split(keys[0], ',') == [keys[0]];
    } else if |keys| > 1 {
      var rest := Join(keys[1..], ", ");
      assert keys[0] in keys;
      assert Join(keys, ", ") == keys[0] + "," + (" " + rest);
      SplitAt(keys[0], " " + rest, ',');
      KeyStrips(keys[0]);
      KeysOfBlank(rest);
      KeysOfJoin(keys[1..]);
      assert KeysOf(Join(keys, ", ")) == [keys[0]] + KeysOf(" " + rest);
      assert keys == [keys[0]] + keys[1..];
    }
  }

  // ---------------------------------------------------------------------
  // The update
  // ---------------------------------------------------------------------

  /** The keys currently listed in the configuration. */
  function CurrentKeys(config: Config): seq<string> {
    KeysOf(AgeText(Rules(config)[0]))
  }

  /** The specification of `update_sops_yaml` on the loaded configuration:
      the new configuration and whether it changed (and was written). */
  function Updated(config: Config, newKey: string): (Config, bool) {
    var rules := Rules(config);
    var keys := CurrentKeys(config);
    if newKey in keys then (config, false)
    else
      var first := rules[0].(age := Some(Join(keys + [newKey], ", ")));
      (config.(rules := Some([first] + rules[1..])), true)
  }

  /** The configuration changes exactly when the key was missing. */
  lemma UpdatedChanges(config: Config, newKey: string)
    ensures var (c, changed) := Updated(config, newKey);
            (changed <==> newKey !in CurrentKeys(config)) && (!changed ==> c == config)
  {
  }

  /** A missing key is appended at the end of the list, which otherwise
      reads back unchanged. */
  lemma UpdatedAppends(config: Config, newKey: string)
    requires IsKey(newKey) && newKey !in CurrentKeys(config)
    ensures CurrentKeys(Updated(config, newKey).0) == CurrentKeys(config) + [newKey]
  {
    var keys := CurrentKeys(config);
    var rules := Rules(config);
    KeysOfAreKeys(AgeText(rules[0]));
    KeysOfJoin(keys + [newKey]);
    var first := rules[0].(age := Some(Join(keys + [newKey], ", ")));
    var c := config.(rules := Some([first] + rules[1..]));
    assert Updated(config, newKey).0 == c;
    assert Rules(c)[0] == first;
  }

  /** After the update the key is listed. */
  lemma UpdatedListsKey(config: Config, newKey: string)
    requires IsKey(newKey)
    ensures newKey in CurrentKeys(Updated(config, newKey).0)
  {
    UpdatedChanges(config, newKey);
    if newKey !in CurrentKeys(config) {
      UpdatedAppends(config, newKey);
    }
  }

  /** Nothing but the first rule's `age` field changes: the other fields of
      the configuration and of that rule, and the other rules, are kept. */
  lemma UpdatedKeepsRest(config: Config, newKey: string)
    ensures var c := Updated(config, newKey).0;
            c.other == config.other
            && |Rules(c)| == |Rules(config)|
            && Rules(c)[0].other == Rules(config)[0].other
            && Rules(c)[1..] == Rules(config)[1..]
  {
    var rules := Rules(config);
    if newKey !in CurrentKeys(config) {
      var first := rules[0].(age := Some(Join(CurrentKeys(config) + [newKey], ", ")));
      assert Updated(config, newKey).0 == config.(rules := Some([first] + rules[1..]));
      assert Rules(Updated(config, newKey).0) == [first] + rules[1..];
    }
  }

  /** Registering the same key twice changes nothing the second time. */
  lemma UpdateIdempotent(config: Config, newKey: string)
    requires IsKey(newKey)
    ensures var c := Updated(config, newKey).0;
            Updated(c, newKey) == (c, false)
  {
    UpdatedListsKey(config, newKey);
  }

  /** The `.sops.yaml` file: whether it exists, what it holds, and how many
      times it has been written. */
  class SopsFile {
    var present: bool
    var config: Config
    var writes: nat

    constructor (present: bool, config: Config)
      ensures this.present == present && this.config == config && writes == 0
    {
      this.present := present;
      this.config := config;
      writes := 0;
    }
  }

  /** `update_sops_yaml`: fails when the file is missing; otherwise appends
      the key when it is new, writes the file back and returns `True`, or
      returns `False` and writes nothing. */
  method UpdateSopsYaml(f: SopsFile, newKey: string) returns (res: Result<bool, string>)
    modifies f
    ensures !old(f.present) ==> res.Err? && f.config == old(f.config) && f.writes == old(f.writes)
    ensures old(f.present) ==>
              var (c, changed) := Updated(old(f.config), newKey);
              res == Ok(changed) && f.config == c
              && f.writes == old(f.writes) + (if changed then 1 else 0)
    ensures f.present == old(f.present)
  {
    if !f.present {
      return Err("not found");
    }
    ghost var spec := Updated(f.config, newKey);
    var rules := Rules(f.config);
    var keys := KeysOf(AgeText(rules[0]));
    if newKey !in keys {
      keys := keys + [newKey];
      var first := rules[0].(age := Some(Join(keys, ", ")));
      f.config := f.config.(rules := Some([first] + rules[1..]));
      f.writes := f.writes + 1;
      assert spec == (f.config, true);
      return Ok(true);
    }
    assert spec == (f.config, false);
    return Ok(false);
  }

  // ---------------------------------------------------------------------
  // The script
  // ---------------------------------------------------------------------

  /** `ssh -i KEY -o StrictHostKeyChecking=no USER@HOST cat
      /etc/ssh/ssh_host_ed25519_key.pub`. */
  function HostKeyArgv(host: string, user: string, sshKey: string): seq<string> {
    ["ssh", "-i", sshKey, "-o", "StrictHostKeyChecking=no", user + "@" + host,
     "cat", "/etc/ssh/ssh_host_ed25519_key.pub"]
  }

  const ReencryptArgv: seq<string> := ["sops", "--rotate", "--in-place", "secrets.yaml"]

  /** The `__main__` block: fetch the host key, update the configuration and
      re-encrypt only when it changed. Returns the exit status. */
  method RegisterHost(r: Runner, f: SopsFile, host: string, user: string, sshKey: string)
    returns (status: int)
    modifies r, f
    ensures f.present == old(f.present)
    ensures var o := NextOutcome(old(r.script));
            && (!o.Succeeded() ==>
                  status == 1 && r.log == old(r.log) + [Command(HostKeyArgv(host, user, sshKey))]
                  && r.script == RestOf(old(r.script))
                  && f.config == old(f.config) && f.writes == old(f.writes))
            && (o.Succeeded() && !old(f.present) ==>
                  status == 1 && r.log == old(r.log) + [Command(HostKeyArgv(host, user, sshKey))]
                  && r.script == RestOf(old(r.script))
                  && f.config == old(f.config) && f.writes == old(f.writes))
            && (o.Succeeded() && old(f.present) ==>
                  var (c, changed) := Updated(old(f.config), Strip(o.stdout));
                  f.config == c
                  && f.writes == old(f.writes) + (if changed then 1 else 0)
                  && r.log == old(r.log) + [Command(HostKeyArgv(host, user, sshKey))]
                              + (if changed then [Command(ReencryptArgv)] else [])
                  && r.script == (if changed then RestOf(RestOf(old(r.script))) else RestOf(old(r.script)))
                  && status == (if changed && NextOutcome(RestOf(old(r.script))).NotFound? then 1 else 0))
  {
    var o := r.Run(HostKeyArgv(host, user, sshKey));
    if !o.Succeeded() {
      // A failed ssh raises RuntimeError, a missing ssh FileNotFoundError;
      // both reach the handler that exits with 1.
      return 1;
    }
    var pubkey := Strip(o.stdout);
    var updated := UpdateSopsYaml(f, pubkey);
    if updated.Err? {
      return 1;
    }
    if updated.value {
      var o2 := r.Run(ReencryptArgv);
      // A non-zero status is only printed; a missing sops raises.
      if o2.NotFound? {
        return 1;
      }
    }
    return 0;
  }
}
